// From a Vault response to the three PEM blobs the writer lays out.
module Sources {
  import opened Bytes
  import opened Wrappers
  import opened Pem

  // PEM-encoded output of a successful fetch.
  datatype Material = Material(cert: bytes, key: bytes, ca: bytes)

  // The shapes a response field can have, as far as the code looks at them.
  datatype Json = JString(text: bytes) | JArray(items: seq<Json>) | JOther

  type Response = map<string, Json>

  // ---------------------------------------------------------- line endings

  function EnsureNewline(s: bytes): (r: bytes)
    ensures r != [] && Closed(r) && s <= r
  {
    if s != [] && s[|s| - 1] == NL then s else s + [NL]
  }

  // Normalising the line ending changes no block, whatever the text is.
  lemma EnsureNewlineBlocks(s: bytes)
    ensures Blocks(EnsureNewline(s)) == Blocks(s)
  {
    if s == [] {
      assert EnsureNewline(s) == [NL] + [];
      LineOf([], []);
      assert [] + [NL] + [] == EnsureNewline(s);
    } else if s[|s| - 1] != NL {
      BlocksEnded(s);
    }
  }

  lemma EnsureNewlineFinished(s: bytes)
    requires Finished(s)
    ensures Finished(EnsureNewline(s))
  {
    if s == [] {
      assert [] + [NL] + [] == EnsureNewline(s);
      LineOf([], []);
    } else if s[|s| - 1] != NL {
      FinishedEnded(s);
    }
  }

  predicate EndsTwice(s: bytes) {
    |s| >= 2 && s[|s| - 1] == NL && s[|s| - 2] == NL
  }

  // "Exactly one trailing newline" holds only when the input did not already
  // end in two.
  lemma EnsureNewlineExactlyOne(s: bytes)
    ensures !EndsTwice(EnsureNewline(s)) <==> !EndsTwice(s)
  {
  }

  // ----------------------------------------------------------- splitBundle

  datatype Split = Split(leaf: bytes, chain: bytes)

  predicate AllCertificates(bs: seq<Block>) {
    forall i :: 0 <= i < |bs| ==> bs[i].IsCertificate()
  }

  // The result of peeling a block sequence.
  function SplitOf(bs: seq<Block>): Result<Split, Error> {
    if bs == [] then Failure(NoPemBlock)
    else if !AllCertificates(bs) then Failure(WrongBlockType)
    else Success(Split(Encode(bs[0]), EncodeAll(bs[1..])))
  }

  lemma {:induction false} EncodeAllSnoc(bs: seq<Block>, b: Block)
    ensures EncodeAll(bs + [b]) == EncodeAll(bs) + Encode(b)
  {
    if bs == [] {
      assert bs + [b] == [b];
      assert EncodeAll([b][1..]) == [];
    } else {
      calc {
        EncodeAll(bs + [b]);
        { assert (bs + [b])[0] == bs[0] && (bs + [b])[1..] == bs[1..] + [b]; }
        Encode(bs[0]) + EncodeAll(bs[1..] + [b]);
        { EncodeAllSnoc(bs[1..], b); }
        Encode(bs[0]) + (EncodeAll(bs[1..]) + Encode(b));
        { Associative(Encode(bs[0]), EncodeAll(bs[1..]), Encode(b)); }
        EncodeAll(bs) + Encode(b);
      }
    }
  }

  // The blocks seen so far, and the two texts made of them.
  ghost predicate Peeled(seen: seq<Block>, leaf: bytes, chain: bytes) {
    && AllCertificates(seen)
    && (seen == [] ==> leaf == [] && chain == [])
    && (seen != [] ==> leaf == Encode(seen[0]) && chain == EncodeAll(seen[1..]))
  }

  lemma PeelNext(seen: seq<Block>, block: Block, leaf: bytes, chain: bytes)
    requires Peeled(seen, leaf, chain) && block.IsCertificate()
    ensures seen == [] ==> Peeled(seen + [block], Encode(block), chain)
    ensures seen != [] ==> Peeled(seen + [block], leaf, chain + Encode(block))
  {
    var more := seen + [block];
    assert forall i :: 0 <= i < |more| ==> more[i] == if i < |seen| then seen[i] else block;
    if seen == [] {
      assert more[1..] == [];
    } else {
      EncodeAllSnoc(seen[1..], block);
      assert more[1..] == seen[1..] + [block];
    }
  }

  // Peels the leaf off the front of a bundle and re-encodes the rest.
  method SplitBundle(bundle: bytes) returns (r: Result<Split, Error>)
    ensures r == SplitOf(Blocks(bundle))
  {
    var rest := bundle;
    var leaf, chain: bytes := [], [];
    var i := 0;
    ghost var seen: seq<Block> := [];
    while true
      invariant Blocks(bundle) == seen + Blocks(rest)
      invariant |seen| == i && Peeled(seen, leaf, chain)
      decreases |rest|
    {
      var d := Pem.Decode(rest);
      if d == None {
        break;
      }
      var block := d.value.block;
      Associative(seen, [block], Blocks(d.value.rest));
      rest := d.value.rest;
      if !block.IsCertificate() {
        assert Blocks(bundle)[i] == block;
        return Failure(WrongBlockType);
      }
      PeelNext(seen, block, leaf, chain);
      var encoded := Encode(block);
      if i == 0 {
        leaf := encoded;
      } else {
        chain := chain + encoded;
      }
      seen := seen + [block];
      i := i + 1;
    }
    assert Blocks(bundle) == seen;
    if i == 0 {
      return Failure(NoPemBlock);
    }
    return Success(Split(leaf, chain));
  }

  lemma {:induction false} EncodeAllClosed(bs: seq<Block>)
    ensures Closed(EncodeAll(bs)) && StartsBlock(EncodeAll(bs))
  {
    if bs == [] {
    } else {
      EncodeAllClosed(bs[1..]);
      EncodeEnds(bs[0]);
    }
  }

  lemma EncodeEnds(b: Block)
    ensures Closed(Encode(b)) && BEGIN <= Encode(b) && Encode(b) != []
  {
  }

  // Splitting is a normal form: the parts hold exactly the input's blocks,
  // and splitting their concatenation gives the same parts back.
  lemma SplitNormalForm(bundle: bytes)
    requires SplitOf(Blocks(bundle)).Success?
    ensures var s := SplitOf(Blocks(bundle)).value; var bs := Blocks(bundle);
            && bs != [] && AllCertificates(bs)
            && Blocks(s.leaf) == [bs[0]]
            && Blocks(s.chain) == bs[1..]
            && Blocks(s.leaf + s.chain) == bs
            && SplitOf(Blocks(s.leaf + s.chain)) == Success(s)
            && Closed(s.leaf) && Closed(s.chain) && StartsBlock(s.chain)
  {
    var bs := Blocks(bundle);
    EncodeEnds(bs[0]);
    EncodeAllClosed(bs[1..]);
    BlocksStep(bs[0], []);
    assert Encode(bs[0]) + [] == Encode(bs[0]) && Blocks([]) == [];
    BlocksEncodeAll(bs[1..], []);
    assert EncodeAll(bs[1..]) + [] == EncodeAll(bs[1..]) && bs[1..] + [] == bs[1..];
    BlocksStep(bs[0], EncodeAll(bs[1..]));
    assert bs == [bs[0]] + bs[1..];
  }

  // ------------------------------------------------------------ chainField

  function ChainText(items: seq<bytes>): bytes {
    if items == [] then [] else ChainText(items[..|items| - 1]) + EnsureNewline(items[|items| - 1])
  }

  function BlocksOf(items: seq<bytes>): seq<Block> {
    if items == [] then [] else BlocksOf(items[..|items| - 1]) + Blocks(items[|items| - 1])
  }

  lemma ChainTextStep(items: seq<Json>, i: nat)
    requires i < |items| && AllStrings(items[..i]) && items[i].JString?
    ensures AllStrings(items[..i + 1])
    ensures ChainText(Texts(items[..i + 1])) == ChainText(Texts(items[..i])) + EnsureNewline(items[i].text)
  {
    assert items[..i + 1] == items[..i] + [items[i]];
    ChainTextSnoc(Texts(items[..i]), items[i].text);
    assert Texts(items[..i + 1]) == Texts(items[..i]) + [items[i].text];
  }

  predicate AllStrings(items: seq<Json>) {
    forall i :: 0 <= i < |items| ==> items[i].JString?
  }

  function Texts(items: seq<Json>): (ts: seq<bytes>)
    requires AllStrings(items)
    ensures |ts| == |items| && forall i :: 0 <= i < |ts| ==> ts[i] == items[i].text
  {
    seq(|items|, i requires 0 <= i < |items| => items[i].text)
  }

  lemma ChainTextSnoc(items: seq<bytes>, s: bytes)
    ensures ChainText(items + [s]) == ChainText(items) + EnsureNewline(s)
  {
    assert (items + [s])[..|items|] == items;
  }

  // Joins an array of PEM strings into one bundle.
  method ChainField(data: Response, key: string) returns (r: Result<bytes, Error>)
    ensures r.Success? <==>
      key in data && data[key].JArray? && data[key].items != [] && AllStrings(data[key].items)
    ensures r.Success? ==> r.value == ChainText(Texts(data[key].items))
    ensures r.Failure? ==> r.error == BadResponse
  {
    if key !in data || !data[key].JArray? {
      return Failure(BadResponse);
    }
    var items := data[key].items;
    if |items| == 0 {
      return Failure(BadResponse);
    }
    var b: bytes := [];
    for i := 0 to |items|
      invariant AllStrings(items[..i])
      invariant b == ChainText(Texts(items[..i]))
    {
      if !items[i].JString? {
        return Failure(BadResponse);
      }
      var s := items[i].text;
      ghost var before := b;
      b := b + s;
      if !(s != [] && s[|s| - 1] == NL) {
        b := b + [NL];
      }
      assert b == before + EnsureNewline(s) by {
        Associative(before, s, [NL]);
      }
      ChainTextStep(items, i);
    }
    assert items[..|items|] == items;
    return Success(b);
  }

  lemma ChainClosed(items: seq<bytes>)
    ensures Closed(ChainText(items))
  {
    if items == [] {
    } else {
      var init, last := ChainText(items[..|items| - 1]), EnsureNewline(items[|items| - 1]);
      assert last[|last| - 1] == NL && (init + last)[|init + last| - 1] == last[|last| - 1];
    }
  }

  // Every seam between the entries joins.
  predicate SeamsJoin(items: seq<bytes>) {
    forall i :: 1 <= i < |items| ==> Joins(ChainText(items[..i]), EnsureNewline(items[i]))
  }

  // The joined chain carries the blocks of its entries in order.
  lemma {:induction false} ChainBlocks(items: seq<bytes>)
    requires SeamsJoin(items)
    ensures Blocks(ChainText(items)) == BlocksOf(items)
  {
    if items == [] {
    } else {
      var init, last := items[..|items| - 1], items[|items| - 1];
      ChainClosed(init);
      SeamsInit(items);
      calc {
        Blocks(ChainText(items));
        Blocks(ChainText(init) + EnsureNewline(last));
        { ChainSeam(init, last); }
        Blocks(ChainText(init)) + Blocks(EnsureNewline(last));
        { EnsureNewlineBlocks(last); ChainBlocks(init); }
        BlocksOf(init) + Blocks(last);
        BlocksOf(items);
      }
    }
  }

  lemma SeamsInit(items: seq<bytes>)
    requires items != [] && SeamsJoin(items)
    ensures var init, last := items[..|items| - 1], items[|items| - 1];
      && SeamsJoin(init)
      && (init == [] || Joins(ChainText(init), EnsureNewline(last)))
  {
    var init := items[..|items| - 1];
    forall i | 1 <= i < |init|
      ensures Joins(ChainText(init[..i]), EnsureNewline(init[i]))
    {
      assert init[..i] == items[..i] && init[i] == items[i];
    }
  }

  lemma ChainSeam(init: seq<bytes>, last: bytes)
    requires Closed(ChainText(init))
    requires init == [] || Joins(ChainText(init), EnsureNewline(last))
    ensures Blocks(ChainText(init) + EnsureNewline(last)) == Blocks(ChainText(init)) + Blocks(EnsureNewline(last))
  {
    if init == [] {
      assert ChainText(init) == [] && Blocks([]) == [];
      assert [] + EnsureNewline(last) == EnsureNewline(last);
    } else {
      BlocksAppend(ChainText(init), EnsureNewline(last));
    }
  }

  lemma {:induction false} ChainFinished(items: seq<bytes>)
    requires forall i :: 0 <= i < |items| ==> Finished(items[i])
    ensures Finished(ChainText(items))
  {
    if items == [] {
    } else {
      var init, last := items[..|items| - 1], items[|items| - 1];
      ChainFinished(init);
      ChainClosed(init);
      EnsureNewlineFinished(last);
      FinishedAppend(ChainText(init), EnsureNewline(last));
    }
  }

  // Every seam joins when every entry is finished, whatever stands around its
  // blocks, and when every entry after the first begins with a header line.
  lemma OrdinarySeams(items: seq<bytes>)
    requires
      || (forall i :: 0 <= i < |items| ==> Finished(items[i]))
      || (forall i :: 1 <= i < |items| ==> BEGIN <= items[i])
    ensures SeamsJoin(items)
  {
    forall i | 1 <= i < |items|
      ensures Joins(ChainText(items[..i]), EnsureNewline(items[i]))
    {
      if forall j :: 0 <= j < |items| ==> Finished(items[j]) {
        ChainFinished(items[..i]);
      } else {
        assert BEGIN <= items[i];
      }
    }
  }

  // -------------------------------------------------------------- material

  function StringField(data: Response, key: string): Result<bytes, Error> {
    if key in data && data[key].JString? && data[key].text != [] then Success(data[key].text)
    else Failure(BadResponse)
  }

  predicate HasText(data: Response, key: string) {
    key in data && data[key].JString? && data[key].text != []
  }

  // Response of the PKI engine's issue endpoint.
  method PkiMaterial(data: Response) returns (r: Result<Material, Error>)
    ensures r.Success? <==>
      && HasText(data, "certificate") && HasText(data, "private_key")
      && "ca_chain" in data && data["ca_chain"].JArray? && data["ca_chain"].items != []
      && AllStrings(data["ca_chain"].items)
    ensures r.Success? ==> r.value == Material(
      EnsureNewline(data["certificate"].text),
      EnsureNewline(data["private_key"].text),
      EnsureNewline(ChainText(Texts(data["ca_chain"].items))))
  {
    var leaf := StringField(data, "certificate");
    if leaf.Failure? { return Failure(leaf.error); }
    var key := StringField(data, "private_key");
    if key.Failure? { return Failure(key.error); }
    var chain := ChainField(data, "ca_chain");
    if chain.Failure? { return Failure(chain.error); }
    return Success(Material(EnsureNewline(leaf.value), EnsureNewline(key.value), EnsureNewline(chain.value)));
  }

  // Response of the Let's Encrypt plugin: the whole chain in one field.
  method LetsencryptMaterial(data: Response) returns (r: Result<Material, Error>)
    ensures r.Success? <==>
      && HasText(data, "certificate") && HasText(data, "private_key")
      && SplitOf(Blocks(data["certificate"].text)).Success?
    ensures r.Success? ==>
      var s := SplitOf(Blocks(data["certificate"].text)).value;
      r.value == Material(s.leaf, EnsureNewline(data["private_key"].text), s.chain)
  {
    var bundle := StringField(data, "certificate");
    if bundle.Failure? { return Failure(bundle.error); }
    var key := StringField(data, "private_key");
    if key.Failure? { return Failure(key.error); }
    var s := SplitBundle(bundle.value);
    if s.Failure? { return Failure(s.error); }
    return Success(Material(s.value.leaf, EnsureNewline(key.value), s.value.chain));
  }

  function Certs(ders: seq<bytes>): (bs: seq<Block>)
    ensures |bs| == |ders| && forall i :: 0 <= i < |bs| ==> bs[i] == Block(CERTIFICATE, ders[i])
  {
    if ders == [] then [] else [Block(CERTIFICATE, ders[0])] + Certs(ders[1..])
  }

  // Material whose cert blob is one certificate and whose chain blob holds
  // exactly the given certificates, both ready to be concatenated.
  predicate Presents(m: Material, leaf: bytes, chain: seq<bytes>) {
    && Closed(m.cert) && Closed(m.key) && Closed(m.ca)
    && Joins(m.cert, m.ca)
    && Blocks(m.cert) == [Block(CERTIFICATE, leaf)]
    && Blocks(m.ca) == Certs(chain)
  }

  // The PKI engine's material presents the certificates of the response, for
  // any text around them, when the seams join.
  lemma PkiPresents(cert: bytes, key: bytes, items: seq<bytes>, leaf: bytes, chain: seq<bytes>)
    requires Blocks(cert) == [Block(CERTIFICATE, leaf)]
    requires items != [] && BlocksOf(items) == Certs(chain)
    requires SeamsJoin(items) && Joins(EnsureNewline(cert), EnsureNewline(ChainText(items)))
    ensures Presents(
      Material(EnsureNewline(cert), EnsureNewline(key), EnsureNewline(ChainText(items))), leaf, chain)
  {
    EnsureNewlineBlocks(cert);
    ChainBlocks(items);
    EnsureNewlineBlocks(ChainText(items));
  }

  // The plugin's material always presents the bundle's certificates.
  lemma LetsencryptPresents(bundle: bytes, key: bytes, leaf: bytes, chain: seq<bytes>)
    requires Blocks(bundle) == [Block(CERTIFICATE, leaf)] + Certs(chain)
    ensures SplitOf(Blocks(bundle)).Success?
    ensures var s := SplitOf(Blocks(bundle)).value;
            && Presents(Material(s.leaf, EnsureNewline(key), s.chain), leaf, chain)
            && (chain == [] ==> s.chain == [])
  {
    SplitNormalForm(bundle);
  }

  // Encoded certificates are such material, for any certificates and any key.
  lemma EncodedPresents(key: bytes, leaf: bytes, chain: seq<bytes>)
    ensures Presents(
      Material(EncodeAll(Certs([leaf])), EnsureNewline(key), EncodeAll(Certs(chain))), leaf, chain)
  {
    EncodedBlocks([leaf]);
    EncodedBlocks(chain);
    EncodeAllClosed(Certs([leaf]));
    EncodeAllClosed(Certs(chain));
    assert Certs([leaf]) == [Block(CERTIFICATE, leaf)] by { assert [leaf][1..] == []; }
  }

  lemma CertificateLabel()
    ensures ValidLabel(CERTIFICATE)
  {
  }

  lemma CertsValid(ders: seq<bytes>)
    ensures forall b <- Certs(ders) :: ValidBlock(b)
  {
    CertificateLabel();
    assert forall i :: 0 <= i < |Certs(ders)| ==> Certs(ders)[i].tag == CERTIFICATE;
  }

  lemma EncodedBlocks(ders: seq<bytes>)
    ensures Blocks(EncodeAll(Certs(ders))) == Certs(ders)
  {
    var bs := Certs(ders);
    CertsValid(ders);
    BlocksEncodeAll(bs, []);
    assert EncodeAll(bs) + [] == EncodeAll(bs) && Blocks([]) == [] && bs + [] == bs;
  }

  // ------------------------------------------------- what the engines issue

  function KeyText(key: bytes): bytes {
    Encode(Block(PRIVATE_KEY, key))
  }

  // Material as the engines issue it: certificates and key, encoded.
  function Issued(leaf: bytes, chain: seq<bytes>, key: bytes): Material {
    Material(EncodeAll(Certs([leaf])), KeyText(key), EncodeAll(Certs(chain)))
  }

  lemma KeyTextEnded(key: bytes)
    ensures EnsureNewline(KeyText(key)) == KeyText(key) && KeyText(key) != []
    ensures Blocks(KeyText(key)) == [Block(PRIVATE_KEY, key)]
    ensures Finished(KeyText(key))
  {
    var b := Block(PRIVATE_KEY, key);
    EncodeEnds(b);
    BlocksStep(b, []);
    assert Encode(b) + [] == Encode(b) && Blocks([]) == [];
    FinishedEncode(b);
  }

  lemma IssuedPresents(leaf: bytes, chain: seq<bytes>, key: bytes)
    ensures Presents(Issued(leaf, chain, key), leaf, chain)
    ensures var m := Issued(leaf, chain, key); Finished(m.cert) && Finished(m.ca) && Finished(m.key)
  {
    KeyTextEnded(key);
    EncodedPresents(KeyText(key), leaf, chain);
    CertsFinished([leaf]);
    CertsFinished(chain);
  }

  lemma CertsFinished(ders: seq<bytes>)
    ensures Finished(EncodeAll(Certs(ders)))
  {
    CertsValid(ders);
    EncodeAllFinished(Certs(ders));
  }

  lemma CertsEnded(ders: seq<bytes>)
    requires ders != []
    ensures EncodeAll(Certs(ders)) != [] && EnsureNewline(EncodeAll(Certs(ders))) == EncodeAll(Certs(ders))
  {
    EncodeEnds(Certs(ders)[0]);
    EncodeAllClosed(Certs(ders));
  }

  // The response of the PKI engine that carries them.
  function PkiResponse(leaf: bytes, chain: seq<bytes>, key: bytes): Response {
    map["certificate" := JString(EncodeAll(Certs([leaf]))),
        "private_key" := JString(KeyText(key)),
        "ca_chain" := JArray([JString(EncodeAll(Certs(chain)))])]
  }

  // The conditions and the result of `PkiMaterial`.
  ghost predicate PkiYields(data: Response, m: Material) {
    && HasText(data, "certificate") && HasText(data, "private_key")
    && "ca_chain" in data && data["ca_chain"].JArray? && data["ca_chain"].items != []
    && AllStrings(data["ca_chain"].items)
    && m == Material(
         EnsureNewline(data["certificate"].text),
         EnsureNewline(data["private_key"].text),
         EnsureNewline(ChainText(Texts(data["ca_chain"].items))))
  }

  // It makes this material of it.
  lemma IssuedByPki(leaf: bytes, chain: seq<bytes>, key: bytes)
    requires chain != []
    ensures PkiYields(PkiResponse(leaf, chain, key), Issued(leaf, chain, key))
  {
    PkiFields(leaf, chain, key);
    CertsEnded([leaf]);
    CertsEnded(chain);
    KeyTextEnded(key);
    PkiOf(PkiResponse(leaf, chain, key), EncodeAll(Certs([leaf])), KeyText(key), EncodeAll(Certs(chain)));
  }

  lemma PkiOf(data: Response, cert: bytes, key: bytes, chain: bytes)
    requires "certificate" in data && data["certificate"] == JString(cert)
    requires "private_key" in data && data["private_key"] == JString(key)
    requires "ca_chain" in data && data["ca_chain"] == JArray([JString(chain)])
    requires cert != [] && EnsureNewline(cert) == cert && key != [] && EnsureNewline(key) == key
    requires EnsureNewline(chain) == chain
    ensures PkiYields(data, Material(cert, key, chain))
  {
    OneText(chain);
    OneEntry(chain);
  }

  lemma OneText(text: bytes)
    ensures AllStrings([JString(text)]) && Texts([JString(text)]) == [text]
  {
  }

  lemma OneEntry(text: bytes)
    requires EnsureNewline(text) == text
    ensures EnsureNewline(ChainText([text])) == text
  {
    ChainTextSnoc([], text);
    assert [] + [text] == [text] && ChainText([]) == [] && [] + text == text;
  }

  lemma PkiFields(leaf: bytes, chain: seq<bytes>, key: bytes)
    ensures var data := PkiResponse(leaf, chain, key);
      && "certificate" in data && data["certificate"] == JString(EncodeAll(Certs([leaf])))
      && "private_key" in data && data["private_key"] == JString(KeyText(key))
      && "ca_chain" in data && data["ca_chain"] == JArray([JString(EncodeAll(Certs(chain)))])
  {
    assert "certificate"[1] == 'e' && "private_key"[1] == 'r' && "ca_chain"[1] == 'a';
  }

  // And so does `LetsencryptMaterial` of the bundle of the plugin.
  lemma IssuedByLetsencrypt(leaf: bytes, chain: seq<bytes>, key: bytes)
    ensures var bundle := EncodeAll(Certs([leaf] + chain));
      && SplitOf(Blocks(bundle)).Success?
      && var s := SplitOf(Blocks(bundle)).value;
         Issued(leaf, chain, key) == Material(s.leaf, EnsureNewline(KeyText(key)), s.chain)
  {
    var all := [leaf] + chain;
    EncodedBlocks(all);
    KeyTextEnded(key);
    assert Certs(all) == [Block(CERTIFICATE, leaf)] + Certs(chain) by { assert all[1..] == chain; }
    assert Certs(all)[1..] == Certs(chain);
    assert [leaf][1..] == [];
    assert Certs([leaf]) == [Block(CERTIFICATE, leaf)];
    assert EncodeAll(Certs([leaf])) == Encode(Block(CERTIFICATE, leaf)) + EncodeAll([]);
  }
}
