// Configuration and its validation.
module Config {
  import opened Wrappers
  import opened Hosts
  import opened Paths

  const SOURCE_PKI := "pki"
  const SOURCE_LETSENCRYPT := "letsencrypt"
  const FORMAT_SPLIT := "split"
  const FORMAT_COMBINED := "combined"

  const CERT_CHAIN_KEY := "cert-chain-key"
  const CERT_KEY_CHAIN := "cert-key-chain"
  const KEY_CERT_CHAIN := "key-cert-chain"
  const KEY_CHAIN_CERT := "key-chain-cert"
  const CHAIN_CERT_KEY := "chain-cert-key"
  const CHAIN_KEY_CERT := "chain-key-cert"
  const DEFAULT_BUNDLE_ORDER := CERT_CHAIN_KEY

  const BUNDLE_ORDERS: seq<string> := [
    CERT_CHAIN_KEY, CERT_KEY_CHAIN, KEY_CERT_CHAIN,
    KEY_CHAIN_CERT, CHAIN_CERT_KEY, CHAIN_KEY_CERT
  ]

  const RELOAD := "reload"
  const RESTART := "restart"
  const TRY_RESTART := "try-restart"
  const RELOAD_OR_RESTART := "reload-or-restart"
  const TRY_RELOAD_OR_RESTART := "try-reload-or-restart"
  const DEFAULT_RELOAD_METHOD := TRY_RELOAD_OR_RESTART

  const RELOAD_METHODS: seq<string> := [
    RELOAD, RESTART, TRY_RESTART, RELOAD_OR_RESTART, TRY_RELOAD_OR_RESTART
  ]

  datatype VaultConfig = VaultConfig(url: string, roleIdFile: string, secretIdFile: string)

  // File names of a split layout; "" means the slot is not declared.
  datatype FilesBlock = FilesBlock(cert: string, key: string, ca: string, fullchain: string)

  datatype CertConfig = CertConfig(
    name: string,
    source: string,
    destination: string,
    format: string,
    files: Option<FilesBlock>,
    owner: string,
    mode: string,
    keyOwner: string,
    keyMode: string,
    bundleOrder: string,
    reloadCommand: seq<string>,
    reloadUnits: seq<string>,
    reloadMethod: string,
    pkiMount: string,
    pkiRole: string,
    commonName: string,
    ttl: string,
    altNames: seq<string>,
    lePath: string)

  datatype Config = Config(vault: VaultConfig, threshold: real, certs: seq<CertConfig>)

  // ----------------------------------------------------- scalar syntaxes

  function IndexOf(s: string, c: char): (n: nat)
    ensures n <= |s|
    ensures forall i :: 0 <= i < n ==> s[i] != c
    ensures n < |s| ==> s[n] == c
  {
    if s == "" || s[0] == c then 0 else 1 + IndexOf(s[1..], c)
  }

  datatype Owner = Owner(user: string, group: string)

  // "user:group", cut at the first colon.
  function ParseOwner(s: string): Option<Owner> {
    var n := IndexOf(s, ':');
    if n == |s| || n == 0 || n + 1 == |s| then None
    else Some(Owner(s[..n], s[n + 1..]))
  }

  predicate IsOctal(s: string) {
    s != "" && forall i :: 0 <= i < |s| ==> '0' <= s[i] <= '7'
  }

  function OctalValue(s: string): nat
    requires forall i :: 0 <= i < |s| ==> '0' <= s[i] <= '7'
  {
    if s == "" then 0
    else OctalValue(s[..|s| - 1]) * 8 + (s[|s| - 1] as int - '0' as int)
  }

  // An unsigned 32-bit number in base 8.
  function ParseMode(s: string): Option<nat> {
    if IsOctal(s) && OctalValue(s) < 0x1_0000_0000 then Some(OctalValue(s)) else None
  }

  // -------------------------------------- what the texts stand for

  function Pow8(n: nat): nat {
    if n == 0 then 1 else 8 * Pow8(n - 1)
  }

  // Digit i of the number, counted from the left of a text of that length, is
  // the one in the text.
  ghost predicate DigitAt(n: nat, text: string, i: nat)
    requires i < |text|
  {
    Pow8(|text| - 1 - i) > 0 && (n / Pow8(|text| - 1 - i)) % 8 == text[i] as int - '0' as int
  }

  // The text is the number in base 8, with leading zeros perhaps.
  ghost predicate OctalFor(n: nat, text: string) {
    text != "" && n < Pow8(|text|) && forall i :: 0 <= i < |text| ==> DigitAt(n, text, i)
  }

  lemma {:induction false} Pow8Positive(n: nat)
    ensures Pow8(n) > 0
  {
    if n == 0 {
    } else {
      Pow8Positive(n - 1);
    }
  }

  lemma DivideFurther(n: nat, p: nat)
    requires p > 0
    ensures n / (8 * p) == (n / 8) / p
  {
    var q, r := n / 8, n % 8;
    var a, b := q / p, q % p;
    assert n == (8 * p) * a + (8 * b + r) by {
      assert q == p * a + b;
      assert n == 8 * (p * a + b) + r;
      assert 8 * (p * a) == (8 * p) * a;
    }
    assert 0 <= 8 * b + r < 8 * p;
    QuotientIs(n, 8 * p, a, 8 * b + r);
  }

  lemma AtLeastOnce(d: int, k: int)
    requires d >= 0
    ensures k >= 1 ==> d * k >= d
    ensures k <= -1 ==> d * k <= -d
  {
    if k >= 1 {
      assert d * k == d + d * (k - 1);
    } else if k <= -1 {
      assert d * k == -d + d * (k + 1);
    }
  }

  lemma QuotientIs(n: nat, d: nat, q: nat, r: nat)
    requires n == d * q + r && r < d
    ensures n / d == q
  {
    var x, s := n / d, n % d;
    assert n == d * x + s && 0 <= s < d;
    assert d * (x - q) == d * x - d * q == r - s;
    AtLeastOnce(d, x - q);
  }

  // The digits of a number are its last one and those of its eighth.
  lemma DigitShift(n: nat, text: string, i: nat)
    requires i < |text|
    ensures i == |text| - 1 ==> (DigitAt(n, text, i) <==> n % 8 == text[i] as int - '0' as int)
    ensures i < |text| - 1 ==> (DigitAt(n, text, i) <==> DigitAt(n / 8, text[..|text| - 1], i))
  {
    var k := |text| - 1 - i;
    Pow8Positive(k);
    if k > 0 {
      Pow8Positive(k - 1);
      DivideFurther(n, Pow8(k - 1));
    }
  }

  lemma {:induction false} OctalDigits(text: string, n: nat)
    requires IsOctal(text)
    ensures OctalFor(n, text) <==> n == OctalValue(text)
  {
    var init, last := text[..|text| - 1], text[|text| - 1] as int - '0' as int;
    Pow8Positive(|text| - 1);
    if |text| == 1 {
      assert init == "" && Pow8(1) == 8 * Pow8(0) == 8;
      DigitShift(n, text, 0);
    } else {
      OctalDigits(init, n / 8);
      assert n < Pow8(|text|) <==> n / 8 < Pow8(|init|);
      DigitShift(n, text, |text| - 1);
      if OctalFor(n, text) {
        forall i | 0 <= i < |init|
          ensures DigitAt(n / 8, init, i)
        {
          DigitShift(n, text, i);
        }
      }
      if n == OctalValue(text) {
        forall i | 0 <= i < |text|
          ensures DigitAt(n, text, i)
        {
          DigitShift(n, text, i);
        }
      }
    }
  }

  // The number a mode text stands for: its value in base 8, in 32 bits.
  ghost predicate ModeFor(n: nat, text: string) {
    (forall c <- text :: '0' <= c <= '7') && OctalFor(n, text) && n < 0x1_0000_0000
  }

  // A mode is accepted for exactly that number.
  lemma ModeMeans(text: string, n: nat)
    ensures ParseMode(text) == Some(n) <==> ModeFor(n, text)
  {
    if text != "" && forall c <- text :: '0' <= c <= '7' {
      assert forall i :: 0 <= i < |text| ==> text[i] in text;
      OctalDigits(text, n);
    }
  }

  // An owner text: a user and a group around its first colon.
  predicate OwnerFor(user: string, group: string, text: string) {
    text == user + ":" + group && user != "" && group != "" && ':' !in user
  }

  // An owner is accepted for exactly that user and group.
  lemma OwnerMeans(text: string, user: string, group: string)
    ensures ParseOwner(text) == Some(Owner(user, group)) <==> OwnerFor(user, group, text)
  {
    var n := IndexOf(text, ':');
    if text == user + ":" + group && ':' !in user {
      assert text[|user|] == ':';
      assert forall i :: 0 <= i < |user| ==> text[i] == user[i];
      assert n == |user|;
      assert text[..n] == user && text[n + 1..] == group;
    }
    if n < |text| {
      assert text == text[..n] + [text[n]] + text[n + 1..];
    }
  }

  predicate IsSpace(c: char) {
    || '\U{0009}' <= c <= '\U{000D}' || c == ' ' || c == '\U{0085}' || c == '\U{00A0}'
    || c == '\U{1680}' || '\U{2000}' <= c <= '\U{200A}' || c == '\U{2028}' || c == '\U{2029}'
    || c == '\U{202F}' || c == '\U{205F}' || c == '\U{3000}'
  }

  // Trimming white space leaves nothing.
  predicate IsBlank(s: string) {
    forall i :: 0 <= i < |s| ==> IsSpace(s[i])
  }

  // ------------------------------------------- what a valid config is

  function Slots(f: FilesBlock): seq<string> {
    [f.cert, f.key, f.ca, f.fullchain]
  }

  predicate DistinctSlots(f: FilesBlock) {
    forall i, j :: 0 <= i < j < 4 && Slots(f)[i] != "" ==> Slots(f)[i] != Slots(f)[j]
  }

  predicate ValidFiles(f: FilesBlock) {
    && (forall i :: 0 <= i < 4 && Slots(f)[i] != "" ==> PlainName(Slots(f)[i]))
    && DistinctSlots(f)
    && (f.cert != "" || f.fullchain != "")
  }

  predicate ValidLayout(c: CertConfig) {
    if c.format == FORMAT_SPLIT then
      && c.bundleOrder == ""
      && c.files.Some? && ValidFiles(c.files.value)
      && (c.keyOwner != "" || c.keyMode != "" ==> c.files.value.key != "")
      && (c.keyOwner != "" ==> ParseOwner(c.keyOwner).Some?)
      && (c.keyMode != "" ==> ParseMode(c.keyMode).Some?)
    else
      && c.format == FORMAT_COMBINED
      && c.files == None && c.keyOwner == "" && c.keyMode == ""
      && (c.bundleOrder != "" ==> c.bundleOrder in BUNDLE_ORDERS)
  }

  predicate ValidReload(c: CertConfig) {
    && (c.reloadCommand == [] || c.reloadUnits == [])
    && (c.reloadMethod != "" ==> c.reloadUnits != [] && c.reloadMethod in RELOAD_METHODS)
    && (forall i :: 0 <= i < |c.reloadUnits| ==> !IsBlank(c.reloadUnits[i]))
    && (c.reloadCommand != [] ==> !IsBlank(c.reloadCommand[0]))
  }

  predicate ValidSource(c: CertConfig, host: Host) {
    if c.source == SOURCE_PKI then
      && c.pkiMount != "" && c.pkiRole != "" && c.commonName != ""
      && c.ttl != "" && host.isDuration(c.ttl)
    else
      c.source == SOURCE_LETSENCRYPT && c.lePath != ""
  }

  predicate ValidCert(c: CertConfig, host: Host) {
    && c.name != "" && c.destination != ""
    && ParseOwner(c.owner).Some? && ParseMode(c.mode).Some?
    && ValidLayout(c) && ValidReload(c) && ValidSource(c, host)
  }

  predicate ValidVault(v: VaultConfig, host: Host) {
    && v.url != "" && v.roleIdFile != "" && v.secretIdFile != ""
    && host.parseUrl(v.url).Some?
    && host.parseUrl(v.url).value.scheme == "https" && host.parseUrl(v.url).value.host != ""
  }

  predicate DistinctUpTo(certs: seq<CertConfig>, n: nat)
    requires n <= |certs|
  {
    forall i, j :: 0 <= i < j < n ==> certs[i].name != certs[j].name
  }

  predicate DistinctNames(certs: seq<CertConfig>) {
    DistinctUpTo(certs, |certs|)
  }

  predicate ValidConfig(c: Config, host: Host) {
    && ValidVault(c.vault, host)
    && 0.0 < c.threshold < 1.0
    && c.certs != []
    && (forall i :: 0 <= i < |c.certs| ==> ValidCert(c.certs[i], host))
    && DistinctNames(c.certs)
  }

  // -------------------------------------------------- the validation code

  method ValidateBasename(s: string) returns (ok: bool)
    ensures s != "" ==> (ok <==> PlainName(s))
  {
    if '/' in s {
      return false;
    }
    assert NoSlash(s);
    return s != ".." && s != ".";
  }

  // Every declared slot names a plain file, no two the same, and one of them
  // bears the leaf.
  method ValidateSplitFiles(f: Option<FilesBlock>) returns (ok: bool)
    ensures ok <==> f.Some? && ValidFiles(f.value)
  {
    if f == None {
      return false;
    }
    var slots := Slots(f.value);
    var seen: map<string, nat> := map[];
    var declared := 0;
    for i := 0 to 4
      invariant forall n :: n in seen <==> n != "" && n in slots[..i]
      invariant forall j :: 0 <= j < i && slots[j] != "" ==> PlainName(slots[j])
      invariant forall j, k :: 0 <= j < k < i && slots[j] != "" ==> slots[j] != slots[k]
      invariant declared == 0 <==> forall j :: 0 <= j < i ==> slots[j] == ""
    {
      if slots[i] != "" {
        var plain := ValidateBasename(slots[i]);
        if !plain {
          return false;
        }
        if slots[i] in seen {
          return false;
        }
        seen := seen[slots[i] := i];
        declared := declared + 1;
      }
    }
    assert slots[0] == f.value.cert && slots[3] == f.value.fullchain;
    if declared == 0 {
      return false;
    }
    return !(f.value.cert == "" && f.value.fullchain == "");
  }

  predicate ValidateKeyOverrides(c: CertConfig)
    requires c.files.Some?
  {
    if c.keyOwner == "" && c.keyMode == "" then true
    else if c.files.value.key == "" then false
    else if c.keyOwner != "" && ParseOwner(c.keyOwner).None? then false
    else !(c.keyMode != "" && ParseMode(c.keyMode).None?)
  }

  method ValidateReload(c: CertConfig) returns (ok: bool)
    ensures ok <==> ValidReload(c)
  {
    if |c.reloadCommand| > 0 && |c.reloadUnits| > 0 {
      return false;
    }
    if c.reloadMethod != "" && |c.reloadUnits| == 0 {
      return false;
    }
    for i := 0 to |c.reloadUnits|
      invariant forall j :: 0 <= j < i ==> !IsBlank(c.reloadUnits[j])
    {
      if IsBlank(c.reloadUnits[i]) {
        return false;
      }
    }
    if |c.reloadCommand| > 0 {
      if IsBlank(c.reloadCommand[0]) {
        return false;
      }
    }
    return !(c.reloadMethod != "" && c.reloadMethod !in RELOAD_METHODS);
  }

  method ValidateCert(c: CertConfig, host: Host) returns (ok: bool)
    ensures ok <==> ValidCert(c, host)
  {
    if c.name == "" || c.destination == "" || c.owner == "" {
      return false;
    }
    if ParseOwner(c.owner).None? {
      return false;
    }
    if c.mode == "" {
      return false;
    }
    if ParseMode(c.mode).None? {
      return false;
    }
    if c.format == FORMAT_SPLIT {
      if c.bundleOrder != "" {
        return false;
      }
      var files := ValidateSplitFiles(c.files);
      if !files {
        return false;
      }
      if !ValidateKeyOverrides(c) {
        return false;
      }
    } else if c.format == FORMAT_COMBINED {
      if c.files.Some? {
        return false;
      }
      if c.keyOwner != "" || c.keyMode != "" {
        return false;
      }
      if c.bundleOrder != "" && c.bundleOrder !in BUNDLE_ORDERS {
        return false;
      }
    } else {
      return false;
    }
    var reload := ValidateReload(c);
    if !reload {
      return false;
    }
    if c.source == SOURCE_PKI {
      return c.pkiMount != "" && c.pkiRole != "" && c.commonName != "" && c.ttl != "" && host.isDuration(c.ttl);
    } else if c.source == SOURCE_LETSENCRYPT {
      return c.lePath != "";
    }
    return false;
  }

  lemma DistinctNext(certs: seq<CertConfig>, n: nat)
    requires n < |certs| && DistinctUpTo(certs, n)
    requires forall i :: 0 <= i < n ==> certs[i].name != certs[n].name
    ensures DistinctUpTo(certs, n + 1)
  {
  }

  // The loop over the certificate blocks; the names seen so far are kept in a
  // set.
  method ValidateCerts(certs: seq<CertConfig>, host: Host) returns (ok: bool)
    ensures ok <==> (forall i :: 0 <= i < |certs| ==> ValidCert(certs[i], host)) && DistinctNames(certs)
  {
    var seen: set<string> := {};
    for i := 0 to |certs|
      invariant forall j :: 0 <= j < i ==> ValidCert(certs[j], host)
      invariant forall j :: 0 <= j < i ==> certs[j].name in seen
      invariant forall n <- seen :: exists j :: 0 <= j < i && certs[j].name == n
      invariant DistinctUpTo(certs, i)
    {
      var valid := ValidateCert(certs[i], host);
      if !valid {
        return false;
      }
      var duplicate := certs[i].name in seen;
      if duplicate {
        ghost var j :| 0 <= j < i && certs[j].name == certs[i].name;
        return false;
      }
      DistinctNext(certs, i);
      seen := seen + {certs[i].name};
    }
    return true;
  }

  // Sound and complete: the checks accept exactly the valid configurations.
  method Validate(c: Config, host: Host) returns (r: Result<Unit, Error>)
    ensures r.Success? <==> ValidConfig(c, host)
  {
    if !ValidVault(c.vault, host) {
      return Failure(InvalidConfig);
    }
    if c.threshold <= 0.0 || c.threshold >= 1.0 {
      return Failure(InvalidConfig);
    }
    if |c.certs| == 0 {
      return Failure(InvalidConfig);
    }
    var ok := ValidateCerts(c.certs, host);
    return if ok then Success(Unit) else Failure(InvalidConfig);
  }

  // ------------------------------------------------- what validation buys

  // Of a validated certificate: one of two layouts and one of two sources; a
  // mode that is a number and an owner that is two names; an override for the
  // key only where there is a key file, an order only where there is a bundle;
  // one way to reload at most, a method only for units; and everything its
  // source is asked with.
  lemma ValidMeans(c: CertConfig, host: Host)
    requires ValidCert(c, host)
    ensures c.name != "" && c.destination != ""
    ensures c.format == "split" || c.format == "combined"
    ensures (exists n :: ModeFor(n, c.mode)) && exists user, group :: OwnerFor(user, group, c.owner)
    ensures c.keyMode != "" ==> c.files.Some? && c.files.value.key != "" && exists n :: ModeFor(n, c.keyMode)
    ensures c.keyOwner != "" ==>
      c.files.Some? && c.files.value.key != "" && exists user, group :: OwnerFor(user, group, c.keyOwner)
    ensures c.bundleOrder != "" ==> c.format == "combined"
    ensures c.reloadCommand == [] || c.reloadUnits == []
    ensures c.reloadMethod != "" ==> c.reloadUnits != []
    ensures c.source == "pki" || c.source == "letsencrypt"
    ensures c.source == "pki" ==>
      c.pkiMount != "" && c.pkiRole != "" && c.commonName != "" && c.ttl != "" && host.isDuration(c.ttl)
    ensures c.source == "letsencrypt" ==> c.lePath != ""
  {
    assert "letsencrypt"[0] != "pki"[0];
    ModeMeans(c.mode, ParseMode(c.mode).value);
    OwnerMeans(c.owner, ParseOwner(c.owner).value.user, ParseOwner(c.owner).value.group);
    if c.keyMode != "" {
      ModeMeans(c.keyMode, ParseMode(c.keyMode).value);
    }
    if c.keyOwner != "" {
      OwnerMeans(c.keyOwner, ParseOwner(c.keyOwner).value.user, ParseOwner(c.keyOwner).value.group);
    }
  }

  // More than blanks.
  predicate Written(s: string) {
    exists k :: 0 <= k < |s| && s[k] !in {' ', '\t', '\n', '\r'}
  }

  lemma NotBlankWritten(s: string)
    requires !IsBlank(s)
    ensures Written(s)
  {
  }

  // Neither a unit to reload nor the program of a reload command is blank.
  lemma ReloadsNamed(c: CertConfig, host: Host)
    requires ValidCert(c, host)
    ensures forall i :: 0 <= i < |c.reloadUnits| ==> Written(c.reloadUnits[i])
    ensures c.reloadCommand != [] ==> Written(c.reloadCommand[0])
  {
    forall i | 0 <= i < |c.reloadUnits|
      ensures Written(c.reloadUnits[i])
    {
      NotBlankWritten(c.reloadUnits[i]);
    }
    if c.reloadCommand != [] {
      NotBlankWritten(c.reloadCommand[0]);
    }
  }

  // A fraction strictly between none and all of a lifetime, something to keep,
  // and a name of its own for each.
  lemma SettingsMean(c: Config, host: Host)
    requires ValidConfig(c, host)
    ensures 0.0 < c.threshold < 1.0 && c.certs != []
    ensures c.vault.url != "" && c.vault.roleIdFile != "" && c.vault.secretIdFile != ""
    ensures forall i, j :: 0 <= i < j < |c.certs| ==> c.certs[i].name != c.certs[j].name
  {
  }

  // The AppRole secret leaves the machine for an https address only.
  lemma SecretOverHttps(c: Config, host: Host)
    requires ValidConfig(c, host)
    ensures var url := host.parseUrl(c.vault.url); url.Some? && url.value.scheme == "https" && url.value.host != ""
  {
  }
}
