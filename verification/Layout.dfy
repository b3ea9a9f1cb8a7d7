// Which bytes go to which file under which permissions.
module Layout {
  import opened Bytes
  import opened Wrappers
  import opened Hosts
  import opened Paths
  import opened Config
  import opened World
  import opened Sources

  // A file to be written: the place, its content and its permissions.
  datatype SlotFile = SlotFile(path: Path, content: bytes, perms: Perms)

  // ----------------------------------------------------------- leaf path

  // The file whose first certificate the renewer reads; None when the layout
  // has no leaf-bearing file.
  function ResolveLeafPath(c: CertConfig): Option<Path> {
    if c.format == FORMAT_SPLIT then
      if c.files == None then None
      else if c.files.value.cert != "" then Some(FileIn(c.destination, c.files.value.cert))
      else if c.files.value.fullchain != "" then Some(FileIn(c.destination, c.files.value.fullchain))
      else None
    else if c.format == FORMAT_COMBINED && c.destination != "" then Some(Place(c.destination))
    else None
  }

  // The layouts in which the leaf comes first in its file.
  predicate LeafComesFirst(c: CertConfig) {
    c.format == FORMAT_COMBINED ==> c.bundleOrder in {"", CERT_CHAIN_KEY, CERT_KEY_CHAIN}
  }

  // ---------------------------------------------------------- permissions

  function LookupOwner(user: string, group: string, host: Host): Result<(nat, nat), Error> {
    if host.userId(user).None? || host.groupId(group).None? then Failure(UnknownAccount)
    else Success((host.userId(user).value, host.groupId(group).value))
  }

  function ResolvePerms(c: CertConfig, host: Host): Result<Perms, Error> {
    if ParseMode(c.mode).None? then Failure(BadMode)
    else if ParseOwner(c.owner).None? then Failure(BadOwner)
    else
      match LookupOwner(ParseOwner(c.owner).value.user, ParseOwner(c.owner).value.group, host)
      case Failure(e) => Failure(e)
      case Success(ids) => Success(Perms(ParseMode(c.mode).value, ids.0, ids.1))
  }

  // Each override is independent; an unset one falls back.
  function ResolveKeyPerms(c: CertConfig, fallback: Perms, host: Host): Result<Perms, Error> {
    if c.keyMode != "" && ParseMode(c.keyMode).None? then Failure(BadMode)
    else
      var p := if c.keyMode == "" then fallback else fallback.(mode := ParseMode(c.keyMode).value);
      if c.keyOwner == "" then Success(p)
      else if ParseOwner(c.keyOwner).None? then Failure(BadOwner)
      else
        match LookupOwner(ParseOwner(c.keyOwner).value.user, ParseOwner(c.keyOwner).value.group, host)
        case Failure(e) => Failure(e)
        case Success(ids) => Success(p.(uid := ids.0, gid := ids.1))
  }

  // --------------------------------------------------------------- split

  function Slot(dest: string, name: string, content: bytes, perms: Perms): seq<SlotFile> {
    if name == "" then [] else [SlotFile(FileIn(dest, name), content, perms)]
  }

  // The declared slots in writing order.
  function SplitLayout(dest: string, f: FilesBlock, m: Material, perms: Perms, keyPerms: Perms): seq<SlotFile> {
    Slot(dest, f.cert, m.cert, perms) + Slot(dest, f.key, m.key, keyPerms)
    + Slot(dest, f.ca, m.ca, perms) + Slot(dest, f.fullchain, m.cert + m.ca, perms)
  }

  method Add(files: seq<SlotFile>, dest: string, name: string, content: bytes, isKey: bool,
             perms: Perms, keyPerms: Perms)
    returns (r: seq<SlotFile>)
    ensures r == files + Slot(dest, name, content, if isKey then keyPerms else perms)
  {
    if name == "" {
      return files;
    }
    var p := perms;
    if isKey {
      p := keyPerms;
    }
    return files + [SlotFile(FileIn(dest, name), content, p)];
  }

  method SplitFiles(dest: string, f: FilesBlock, m: Material, perms: Perms, keyPerms: Perms)
    returns (files: seq<SlotFile>)
    ensures files == SplitLayout(dest, f, m, perms, keyPerms)
  {
    files := [];
    files := Add(files, dest, f.cert, m.cert, false, perms, keyPerms);
    files := Add(files, dest, f.key, m.key, true, perms, keyPerms);
    files := Add(files, dest, f.ca, m.ca, false, perms, keyPerms);
    if f.fullchain != "" {
      var fc := m.cert;
      fc := fc + m.ca;
      files := Add(files, dest, f.fullchain, fc, false, perms, keyPerms);
    }
  }

  // ------------------------------------------------------------- combined

  datatype Part = CertPart | ChainPart | KeyPart

  function BundleLayout(order: string): Option<seq<Part>> {
    if order == CERT_CHAIN_KEY then Some([CertPart, ChainPart, KeyPart])
    else if order == CERT_KEY_CHAIN then Some([CertPart, KeyPart, ChainPart])
    else if order == KEY_CERT_CHAIN then Some([KeyPart, CertPart, ChainPart])
    else if order == KEY_CHAIN_CERT then Some([KeyPart, ChainPart, CertPart])
    else if order == CHAIN_CERT_KEY then Some([ChainPart, CertPart, KeyPart])
    else if order == CHAIN_KEY_CERT then Some([ChainPart, KeyPart, CertPart])
    else None
  }

  function LayoutOf(order: string): Option<seq<Part>> {
    BundleLayout(if order == "" then DEFAULT_BUNDLE_ORDER else order)
  }

  function Blob(part: Part, m: Material): bytes {
    match part
    case CertPart => m.cert
    case ChainPart => m.ca
    case KeyPart => m.key
  }

  function Concatenated(layout: seq<Part>, m: Material): bytes {
    if layout == [] then []
    else Concatenated(layout[..|layout| - 1], m) + Blob(layout[|layout| - 1], m)
  }

  // The three blobs in the configured order, filled slot by slot.
  method BundleParts(order: string, m: Material) returns (r: Result<array<bytes>, Error>)
    ensures LayoutOf(order) == None ==> r == Failure(UnknownBundleOrder)
    ensures LayoutOf(order).Some? ==>
      && r.Success? && fresh(r.value) && r.value.Length == |LayoutOf(order).value|
      && forall i :: 0 <= i < r.value.Length ==> r.value[i] == Blob(LayoutOf(order).value[i], m)
  {
    var o := order;
    if o == "" {
      o := DEFAULT_BUNDLE_ORDER;
    }
    var layout := BundleLayout(o);
    if layout == None {
      return Failure(UnknownBundleOrder);
    }
    var parts := new bytes[3];
    for i := 0 to 3
      invariant forall j :: 0 <= j < i ==> parts[j] == Blob(layout.value[j], m)
    {
      match layout.value[i] {
        case CertPart => parts[i] := m.cert;
        case ChainPart => parts[i] := m.ca;
        case KeyPart => parts[i] := m.key;
      }
    }
    return Success(parts);
  }

  function PartName(part: Part): string {
    match part
    case CertPart => "cert"
    case ChainPart => "chain"
    case KeyPart => "key"
  }

  // Each order names its parts, in their order, and has every part once.
  lemma OrderNamesParts(order: string)
    requires order in BUNDLE_ORDERS
    ensures BundleLayout(order).Some? && |BundleLayout(order).value| == 3
    ensures var l := BundleLayout(order).value;
      && order == PartName(l[0]) + "-" + PartName(l[1]) + "-" + PartName(l[2])
      && l[0] != l[1] && l[1] != l[2] && l[0] != l[2]
  {
    assert CERT_CHAIN_KEY == "cert" + "-" + "chain" + "-" + "key";
    assert CERT_KEY_CHAIN == "cert" + "-" + "key" + "-" + "chain";
    assert KEY_CERT_CHAIN == "key" + "-" + "cert" + "-" + "chain";
    assert KEY_CHAIN_CERT == "key" + "-" + "chain" + "-" + "cert";
    assert CHAIN_CERT_KEY == "chain" + "-" + "cert" + "-" + "key";
    assert CHAIN_KEY_CERT == "chain" + "-" + "key" + "-" + "cert";
  }

  // ----------------------------------------------------------------- plan

  // The directory made before anything is written.
  function TargetDir(c: CertConfig): Path {
    if c.format == FORMAT_SPLIT then Place(c.destination) else Parent(Place(c.destination))
  }

  // The files a write is to produce, told from the configuration, the accounts
  // and the material.
  function Plan(c: CertConfig, m: Material, host: Host): Result<seq<SlotFile>, Error> {
    match ResolvePerms(c, host)
    case Failure(e) => Failure(e)
    case Success(perms) =>
      if c.format == FORMAT_SPLIT then
        match ResolveKeyPerms(c, perms, host)
        case Failure(e) => Failure(e)
        case Success(keyPerms) =>
          if c.files == None then Failure(MissingFilesBlock)
          else Success(SplitLayout(c.destination, c.files.value, m, perms, keyPerms))
      else if c.format == FORMAT_COMBINED then
        if LayoutOf(c.bundleOrder) == None then Failure(UnknownBundleOrder)
        else Success([SlotFile(Place(c.destination), Concatenated(LayoutOf(c.bundleOrder).value, m), perms)])
      else Failure(UnknownFormat)
  }

  // The files a certificate owns.
  function CertPaths(c: CertConfig): set<Path> {
    if c.format == FORMAT_SPLIT then
      if c.files == None then {}
      else set name | name in Slots(c.files.value) && name != "" :: FileIn(c.destination, name)
    else if c.format == FORMAT_COMBINED then {Place(c.destination)}
    else {}
  }

  // --------------------------------------------------- facts about layouts

  predicate DistinctPaths(files: seq<SlotFile>) {
    files == [] ||
    (DistinctPaths(files[1..]) && forall i :: 1 <= i < |files| ==> files[i].path != files[0].path)
  }

  ghost predicate Apart(a: seq<SlotFile>, b: seq<SlotFile>) {
    forall x <- a, y <- b :: x.path != y.path
  }

  lemma {:induction false} DistinctConcat(a: seq<SlotFile>, b: seq<SlotFile>)
    requires DistinctPaths(a) && DistinctPaths(b) && Apart(a, b)
    ensures DistinctPaths(a + b)
  {
    if a == [] {
      assert a + b == b;
    } else {
      DistinctConcat(a[1..], b);
      assert (a + b)[1..] == a[1..] + b;
      forall i | 1 <= i < |a + b|
        ensures (a + b)[i].path != (a + b)[0].path
      {
        if i < |a| {
          assert (a + b)[i] == a[i];
        } else {
          assert (a + b)[i] == b[i - |a|] && b[i - |a|] in b && a[0] in a;
        }
      }
    }
  }

  lemma SlotsApart(dest: string, a: string, ca: bytes, pa: Perms, b: string, cb: bytes, pb: Perms)
    requires dest != "" && a != b
    requires a != "" ==> PlainName(a)
    requires b != "" ==> PlainName(b)
    ensures Apart(Slot(dest, a, ca, pa), Slot(dest, b, cb, pb))
  {
    if a != "" && b != "" {
      FileInInjective(dest, a, b);
    }
  }

  lemma SlotsDiffer(f: FilesBlock)
    requires ValidFiles(f)
    ensures f.cert != f.key || f.cert == ""
    ensures f.cert != f.ca || f.cert == ""
    ensures f.cert != f.fullchain || f.cert == ""
    ensures f.key != f.ca || f.key == ""
    ensures f.key != f.fullchain || f.key == ""
    ensures f.ca != f.fullchain || f.ca == ""
    ensures f.cert != "" ==> PlainName(f.cert)
    ensures f.key != "" ==> PlainName(f.key)
    ensures f.ca != "" ==> PlainName(f.ca)
    ensures f.fullchain != "" ==> PlainName(f.fullchain)
  {
    var s := Slots(f);
    assert s[0] == f.cert && s[1] == f.key && s[2] == f.ca && s[3] == f.fullchain;
  }

  // Validation's uniqueness check on raw names is uniqueness of files.
  lemma SplitLayoutDistinct(dest: string, f: FilesBlock, m: Material, perms: Perms, keyPerms: Perms)
    requires dest != "" && ValidFiles(f)
    ensures DistinctPaths(SplitLayout(dest, f, m, perms, keyPerms))
  {
    SlotsDiffer(f);
    var a := Slot(dest, f.cert, m.cert, perms);
    var b := Slot(dest, f.key, m.key, keyPerms);
    var c := Slot(dest, f.ca, m.ca, perms);
    var d := Slot(dest, f.fullchain, m.cert + m.ca, perms);
    assert Apart(a, b) by { if f.cert != "" { SlotsApart(dest, f.cert, m.cert, perms, f.key, m.key, keyPerms); } }
    assert Apart(a, c) by { if f.cert != "" { SlotsApart(dest, f.cert, m.cert, perms, f.ca, m.ca, perms); } }
    assert Apart(a, d) by {
      if f.cert != "" { SlotsApart(dest, f.cert, m.cert, perms, f.fullchain, m.cert + m.ca, perms); }
    }
    assert Apart(b, c) by { if f.key != "" { SlotsApart(dest, f.key, m.key, keyPerms, f.ca, m.ca, perms); } }
    assert Apart(b, d) by {
      if f.key != "" { SlotsApart(dest, f.key, m.key, keyPerms, f.fullchain, m.cert + m.ca, perms); }
    }
    assert Apart(c, d) by { if f.ca != "" { SlotsApart(dest, f.ca, m.ca, perms, f.fullchain, m.cert + m.ca, perms); } }
    DistinctConcat(a, b);
    assert Apart(a + b, c);
    DistinctConcat(a + b, c);
    assert Apart(a + b + c, d);
    DistinctConcat(a + b + c, d);
  }

  predicate InPlan(files: seq<SlotFile>, p: Path, content: bytes) {
    exists i :: 0 <= i < |files| && files[i].path == p && files[i].content == content
  }

  lemma InConcat(a: seq<SlotFile>, x: SlotFile, b: seq<SlotFile>)
    ensures InPlan(a + [x] + b, x.path, x.content)
  {
    assert (a + [x] + b)[|a|] == x;
  }

  // Each declared slot is in the layout with its own content.
  lemma SplitLayoutHas(dest: string, f: FilesBlock, m: Material, perms: Perms, keyPerms: Perms)
    ensures var files := SplitLayout(dest, f, m, perms, keyPerms);
      && (f.cert != "" ==> InPlan(files, FileIn(dest, f.cert), m.cert))
      && (f.key != "" ==> InPlan(files, FileIn(dest, f.key), m.key))
      && (f.ca != "" ==> InPlan(files, FileIn(dest, f.ca), m.ca))
      && (f.fullchain != "" ==> InPlan(files, FileIn(dest, f.fullchain), m.cert + m.ca))
  {
    var files := SplitLayout(dest, f, m, perms, keyPerms);
    var a := Slot(dest, f.cert, m.cert, perms);
    var b := Slot(dest, f.key, m.key, keyPerms);
    var c := Slot(dest, f.ca, m.ca, perms);
    var d := Slot(dest, f.fullchain, m.cert + m.ca, perms);
    if f.cert != "" { InConcat([], a[0], b + c + d); assert files == [] + [a[0]] + (b + c + d); }
    if f.key != "" { InConcat(a, b[0], c + d); assert files == a + [b[0]] + (c + d); }
    if f.ca != "" { InConcat(a + b, c[0], d); assert files == a + b + [c[0]] + d; }
    if f.fullchain != "" { InConcat(a + b + c, d[0], []); assert files == a + b + c + [d[0]] + []; }
  }

  // ... and under its own permissions.
  lemma SplitLayoutFiles(dest: string, f: FilesBlock, m: Material, perms: Perms, keyPerms: Perms)
    ensures var files := SplitLayout(dest, f, m, perms, keyPerms);
      && (f.cert != "" ==> SlotFile(FileIn(dest, f.cert), m.cert, perms) in files)
      && (f.key != "" ==> SlotFile(FileIn(dest, f.key), m.key, keyPerms) in files)
      && (f.ca != "" ==> SlotFile(FileIn(dest, f.ca), m.ca, perms) in files)
      && (f.fullchain != "" ==> SlotFile(FileIn(dest, f.fullchain), m.cert + m.ca, perms) in files)
  {
  }

  lemma SplitWithin(c: CertConfig, f: FilesBlock, m: Material, perms: Perms, keyPerms: Perms)
    requires c.format == FORMAT_SPLIT && c.files == Some(f)
    ensures forall x <- SplitLayout(c.destination, f, m, perms, keyPerms) :: x.path in CertPaths(c)
  {
    var s := Slots(f);
    assert s[0] in s && s[1] in s && s[2] in s && s[3] in s;
    forall x | x in SplitLayout(c.destination, f, m, perms, keyPerms)
      ensures exists name :: name in s && name != "" && x.path == FileIn(c.destination, name)
    {
      assert
        || x in Slot(c.destination, f.cert, m.cert, perms)
        || x in Slot(c.destination, f.key, m.key, keyPerms)
        || x in Slot(c.destination, f.ca, m.ca, perms)
        || x in Slot(c.destination, f.fullchain, m.cert + m.ca, perms);
    }
  }

  // A plan stays within the certificate's own files.
  lemma PlanWithin(c: CertConfig, m: Material, host: Host)
    requires Plan(c, m, host).Success?
    ensures forall i :: 0 <= i < |Plan(c, m, host).value| ==> Plan(c, m, host).value[i].path in CertPaths(c)
  {
    if c.format == FORMAT_SPLIT {
      var perms := ResolvePerms(c, host).value;
      SplitWithin(c, c.files.value, m, perms, ResolveKeyPerms(c, perms, host).value);
      var files := Plan(c, m, host).value;
      assert forall i :: 0 <= i < |files| ==> files[i] in files;
    }
  }

  lemma ValidLeafPath(c: CertConfig, host: Host)
    requires ValidCert(c, host)
    ensures ResolveLeafPath(c).Some?
  {
  }

  predicate AccountKnown(owner: string, host: Host) {
    ParseOwner(owner).Some? ==>
      host.userId(ParseOwner(owner).value.user).Some? && host.groupId(ParseOwner(owner).value.group).Some?
  }

  // The configured accounts exist on the host.
  predicate AccountsKnown(c: CertConfig, host: Host) {
    AccountKnown(c.owner, host) && AccountKnown(c.keyOwner, host)
  }

  lemma PermsResolve(c: CertConfig, host: Host)
    requires ParseOwner(c.owner).Some? && ParseMode(c.mode).Some?
    ensures ResolvePerms(c, host).Success? <==> AccountKnown(c.owner, host)
    ensures ResolvePerms(c, host).Failure? ==> ResolvePerms(c, host).error == UnknownAccount
  {
  }

  lemma KeyPermsResolve(c: CertConfig, fallback: Perms, host: Host)
    requires c.keyOwner != "" ==> ParseOwner(c.keyOwner).Some?
    requires c.keyMode != "" ==> ParseMode(c.keyMode).Some?
    ensures ResolveKeyPerms(c, fallback, host).Success? <==> AccountKnown(c.keyOwner, host)
    ensures ResolveKeyPerms(c, fallback, host).Failure? ==> ResolveKeyPerms(c, fallback, host).error == UnknownAccount
  {
    assert ParseOwner("") == None;
  }

  lemma ValidOrder(c: CertConfig)
    requires c.bundleOrder != "" ==> c.bundleOrder in BUNDLE_ORDERS
    ensures LayoutOf(c.bundleOrder).Some?
  {
  }

  lemma ValidPlanFails(c: CertConfig, m: Material, host: Host)
    requires ValidCert(c, host)
    ensures Plan(c, m, host).Failure? ==> Plan(c, m, host).error == UnknownAccount
    ensures Plan(c, m, host).Success? <==> AccountsKnown(c, host)
  {
    PermsResolve(c, host);
    if ResolvePerms(c, host).Success? {
      KeyPermsResolve(c, ResolvePerms(c, host).value, host);
    }
    ValidOrder(c);
    assert c.format != FORMAT_SPLIT ==> ParseOwner(c.keyOwner) == None;
  }

  lemma ValidPlanDistinct(c: CertConfig, m: Material, host: Host)
    requires ValidCert(c, host) && Plan(c, m, host).Success?
    ensures Plan(c, m, host).value != [] && DistinctPaths(Plan(c, m, host).value)
  {
    if c.format == FORMAT_SPLIT {
      var perms := ResolvePerms(c, host).value;
      var keyPerms := ResolveKeyPerms(c, perms, host).value;
      SplitLayoutDistinct(c.destination, c.files.value, m, perms, keyPerms);
    }
  }

  // What validation buys the writer: for a valid certificate nothing in the
  // configuration can make the plan fail, it succeeds exactly when the
  // accounts are there; and its files are pairwise distinct.
  lemma ValidPlan(c: CertConfig, m: Material, host: Host)
    requires ValidCert(c, host)
    ensures ResolveLeafPath(c).Some?
    ensures Plan(c, m, host).Failure? ==> Plan(c, m, host).error == UnknownAccount
    ensures Plan(c, m, host).Success? ==>
      Plan(c, m, host).value != [] && DistinctPaths(Plan(c, m, host).value)
    ensures Plan(c, m, host).Success? <==> AccountsKnown(c, host)
  {
    ValidLeafPath(c, host);
    ValidPlanFails(c, m, host);
    if Plan(c, m, host).Success? {
      ValidPlanDistinct(c, m, host);
    }
  }

  // The leaf path always receives the text that starts the certificate file.
  lemma LeafPathPlanned(c: CertConfig, m: Material, host: Host)
    requires ValidCert(c, host) && Plan(c, m, host).Success?
    ensures ResolveLeafPath(c).Some?
    ensures c.format == FORMAT_SPLIT ==>
      InPlan(Plan(c, m, host).value, ResolveLeafPath(c).value,
             if c.files.value.cert != "" then m.cert else m.cert + m.ca)
    ensures c.format == FORMAT_COMBINED ==>
      && LayoutOf(c.bundleOrder).Some?
      && InPlan(Plan(c, m, host).value, ResolveLeafPath(c).value, Concatenated(LayoutOf(c.bundleOrder).value, m))
  {
    if c.format == FORMAT_SPLIT {
      var perms := ResolvePerms(c, host).value;
      var keyPerms := ResolveKeyPerms(c, perms, host).value;
      SplitLayoutHas(c.destination, c.files.value, m, perms, keyPerms);
    } else {
      var files := Plan(c, m, host).value;
      assert files[0].path == ResolveLeafPath(c).value;
    }
  }

  lemma ParentShorter(p: Path)
    ensures !Leads(p, Parent(p))
    ensures p.parts != [] ==> p == Child(Parent(p), p.parts[|p.parts| - 1])
  {
    if p.parts != [] {
      assert p.parts == p.parts[..|p.parts| - 1] + [p.parts[|p.parts| - 1]];
    }
  }

  // The files of a valid certificate lie directly in its directory.
  lemma ValidBelow(c: CertConfig, host: Host)
    requires ValidCert(c, host)
    ensures forall p <- CertPaths(c) :: Parent(p) == TargetDir(c) && !Leads(p, TargetDir(c))
    ensures forall p <- CertPaths(c) :: TargetDir(c).parts != [] ==> p != TargetDir(c)
  {
    forall p | p in CertPaths(c)
      ensures Parent(p) == TargetDir(c) && !Leads(p, TargetDir(c))
    {
      if c.format == FORMAT_SPLIT {
        SlotsDiffer(c.files.value);
        var name :| name in Slots(c.files.value) && name != "" && p == FileIn(c.destination, name);
        FileInIsChild(c.destination, name);
      }
      ParentShorter(p);
    }
  }

  // A destination without ".." in it, whose last segment names a file when the
  // layout is a single one: cleaning its text changes nothing about the place.
  predicate Straight(c: CertConfig) {
    && ".." !in Segments(c.destination)
    && (c.format == FORMAT_COMBINED ==> PlainName(Segments(c.destination)[|Segments(c.destination)| - 1]))
  }

  // A certificate nothing in whose configuration keeps it from being written.
  predicate UsableCert(c: CertConfig, host: Host) {
    ValidCert(c, host) && AccountsKnown(c, host) && Straight(c)
  }

  lemma PushAllEnds(rooted: bool, parts: seq<string>, more: seq<string>)
    requires more != [] && PlainName(more[|more| - 1])
    ensures var r := PushAll(rooted, parts, more); r != [] && r[|r| - 1] == more[|more| - 1]
  {
  }

  // Its files are not the root.
  lemma UsableNotRoot(c: CertConfig, host: Host)
    requires UsableCert(c, host)
    ensures forall p <- CertPaths(c) :: p.parts != []
  {
    forall p | p in CertPaths(c)
      ensures p.parts != []
    {
      if c.format == FORMAT_SPLIT {
        SlotsDiffer(c.files.value);
        var name :| name in Slots(c.files.value) && name != "" && p == FileIn(c.destination, name);
        FileInIsChild(c.destination, name);
      } else {
        var d := Clean(c.destination);
        PushAllEnds(d.rooted, [], Segments(c.destination));
        PushAllEnds(true, WORKING_DIR, d.parts);
      }
    }
  }

  // Without an order a bundle is certificate, chain, key.
  lemma DefaultOrder()
    ensures LayoutOf("") == Some([CertPart, ChainPart, KeyPart])
  {
  }

  // Whatever the order of the three parts, it has a name, which is accepted.
  lemma EveryOrderNamed(a: Part, b: Part, c: Part)
    requires a != b && b != c && a != c
    ensures var order := PartName(a) + "-" + PartName(b) + "-" + PartName(c);
            order in BUNDLE_ORDERS && LayoutOf(order) == Some([a, b, c])
  {
    OrderWith(a, b);
    OrderNamesParts(OrderStarting(a, b));
  }

  // The order that starts with these two parts.
  function OrderStarting(a: Part, b: Part): string {
    match a
    case CertPart => if b == ChainPart then CERT_CHAIN_KEY else CERT_KEY_CHAIN
    case KeyPart => if b == CertPart then KEY_CERT_CHAIN else KEY_CHAIN_CERT
    case ChainPart => if b == CertPart then CHAIN_CERT_KEY else CHAIN_KEY_CERT
  }

  lemma OrderWith(a: Part, b: Part)
    requires a != b
    ensures OrderStarting(a, b) in BUNDLE_ORDERS && OrderStarting(a, b) != ""
    ensures BundleLayout(OrderStarting(a, b)).Some?
    ensures var l := BundleLayout(OrderStarting(a, b)).value; |l| == 3 && l[0] == a && l[1] == b
  {
    assert CERT_CHAIN_KEY[5] == 'c' && CERT_KEY_CHAIN[5] == 'k' && CERT_CHAIN_KEY[1] == 'e' && CERT_KEY_CHAIN[1] == 'e';
    assert KEY_CERT_CHAIN[5] == 'e' && KEY_CHAIN_CERT[5] == 'h' && KEY_CERT_CHAIN[0] == 'k' && KEY_CHAIN_CERT[0] == 'k';
    assert CHAIN_CERT_KEY[6] == 'c' && CHAIN_KEY_CERT[6] == 'k' && CHAIN_CERT_KEY[1] == 'h' && CHAIN_KEY_CERT[1] == 'h';
  }
}
