/** Reading a service announcement: the text record, the addresses, and what is required of both. */
module Discovery {
  import opened Wire
  import opened Peers

  /** Library behaviour that is not modelled: trimming of white space, and for an address whether it is
      unspecified and how it is printed. A nil address is the empty one. */
  datatype Library = Library(trim: Bytes -> Bytes, unspecified: Bytes -> bool, printed: Bytes -> Bytes)

  datatype Entry = Entry(text: seq<Bytes>, port: int, ipv4: seq<Bytes>, ipv6: seq<Bytes>, hostName: Bytes, instance: Bytes)

  datatype Metadata = Metadata(id: Bytes, name: Bytes, wsPath: Bytes, proto: Bytes)

  datatype EntryError = NilEntry | InvalidText | MissingId | MissingName | MissingPath | UnsupportedProtocol
    | MissingPort | MissingAddresses

  datatype Parsed<T> = Parsed(value: T) | Failed(error: EntryError)

  const EQUALS: byte := 0x3D
  const SLASH: byte := 0x2F
  const DOT: byte := 0x2E
  const ID_KEY: Bytes := [0x69, 0x64]
  const NAME_KEY: Bytes := [0x6E, 0x61, 0x6D, 0x65]
  const PATH_KEY: Bytes := [0x77, 0x73, 0x5F, 0x70, 0x61, 0x74, 0x68]
  const PROTO_KEY: Bytes := [0x70, 0x72, 0x6F, 0x74, 0x6F]

  lemma {:induction false} TextIsSpelled()
    ensures ID_KEY == Ascii("id") && NAME_KEY == Ascii("name") && PATH_KEY == Ascii("ws_path") && PROTO_KEY == Ascii("proto")
    ensures [EQUALS] == Ascii("=") && [SLASH] == Ascii("/") && [DOT] == Ascii(".") && PROTOCOL_VERSION == Ascii("v1")
  {
  }

  // ---- The text record ----

  /** The position of the first equals sign, or the length. */
  function CutAt(s: Bytes): (i: nat)
    ensures i <= |s| && EQUALS !in s[..i] && (i < |s| ==> s[i] == EQUALS)
  {
    if s == [] || s[0] == EQUALS then 0
    else
      var i := CutAt(s[1..]);
      assert s[..i + 1] == [s[0]] + s[1..][..i];
      i + 1
  }

  /** A text entry has a non-empty key before its first equals sign. */
  predicate WellFormed(s: Bytes) {
    0 < CutAt(s) < |s|
  }

  function KeyOf(s: Bytes): Bytes {
    s[..CutAt(s)]
  }

  function ValueOf(s: Bytes): Bytes {
    if CutAt(s) < |s| then s[CutAt(s) + 1..] else []
  }

  function Pair(key: Bytes, value: Bytes): Bytes {
    key + [EQUALS] + value
  }

  lemma {:induction false} CutOfPair(key: Bytes, value: Bytes)
    requires EQUALS !in key
    ensures CutAt(Pair(key, value)) == |key|
  {
    if key != [] {
      assert Pair(key, value)[1..] == Pair(key[1..], value);
      CutOfPair(key[1..], value);
    }
  }

  lemma {:induction false} PairIsCut(key: Bytes, value: Bytes)
    requires key != [] && EQUALS !in key
    ensures WellFormed(Pair(key, value)) && KeyOf(Pair(key, value)) == key && ValueOf(Pair(key, value)) == value
  {
    CutOfPair(key, value);
    assert Pair(key, value)[|key| + 1..] == value;
  }

  predicate IsKey(key: Bytes) {
    key != [] && EQUALS !in key
  }

  /** Exactly the entries with a key, an equals sign and any value are well formed. */
  lemma {:induction false} WellFormedExactly(s: Bytes)
    ensures WellFormed(s) <==> exists key, value :: IsKey(key) && s == Pair(key, value)
  {
    if WellFormed(s) {
      assert IsKey(KeyOf(s)) && s == Pair(KeyOf(s), ValueOf(s));
    }
    forall key, value | IsKey(key) && s == Pair(key, value)
      ensures WellFormed(s)
    {
      PairIsCut(key, value);
    }
  }

  /** The value of the last entry with this key; absent keys read as empty. */
  function LastValue(text: seq<Bytes>, key: Bytes): Bytes {
    if text == [] then []
    else if KeyOf(text[|text| - 1]) == key then ValueOf(text[|text| - 1])
    else LastValue(text[..|text| - 1], key)
  }

  function Lookup(values: map<Bytes, Bytes>, key: Bytes): Bytes {
    if key in values then values[key] else []
  }

  function Field(lib: Library, text: seq<Bytes>, key: Bytes): Bytes {
    (lib.trim)(LastValue(text, key))
  }

  function MetadataOf(lib: Library, text: seq<Bytes>): Metadata {
    Metadata(Field(lib, text, ID_KEY), Field(lib, text, NAME_KEY), Field(lib, text, PATH_KEY), Field(lib, text, PROTO_KEY))
  }

  /** What makes a text record acceptable. */
  predicate AcceptableText(lib: Library, text: seq<Bytes>) {
    var meta := MetadataOf(lib, text);
    && (forall i :: 0 <= i < |text| ==> WellFormed(text[i]))
    && meta.id != [] && meta.name != [] && meta.wsPath != [] && meta.wsPath[0] == SLASH && meta.proto == PROTOCOL_VERSION
  }

  /** What each complaint about a text record says of it. */
  predicate TextRejected(lib: Library, text: seq<Bytes>, error: EntryError) {
    var meta := MetadataOf(lib, text);
    var wellFormed := forall i :: 0 <= i < |text| ==> WellFormed(text[i]);
    match error
    case InvalidText => !wellFormed
    case MissingId => wellFormed && meta.id == []
    case MissingName => wellFormed && meta.id != [] && meta.name == []
    case MissingPath =>
      wellFormed && meta.id != [] && meta.name != [] && (meta.wsPath == [] || meta.wsPath[0] != SLASH)
    case UnsupportedProtocol =>
      && wellFormed && meta.id != [] && meta.name != [] && meta.wsPath != [] && meta.wsPath[0] == SLASH
      && meta.proto != PROTOCOL_VERSION
    case _ => false
  }

  method ParseText(lib: Library, text: seq<Bytes>) returns (r: Parsed<Metadata>)
    ensures r.Parsed? <==> AcceptableText(lib, text)
    ensures r.Parsed? ==> r.value == MetadataOf(lib, text)
    ensures r.Failed? ==> TextRejected(lib, text, r.error)
  {
    var values: map<Bytes, Bytes> := map[];
    for n := 0 to |text|
      invariant forall i :: 0 <= i < n ==> WellFormed(text[i])
      invariant forall key :: Lookup(values, key) == LastValue(text[..n], key)
    {
      var at := CutAt(text[n]);
      if at == 0 || at == |text[n]| {
        assert !WellFormed(text[n]);
        return Failed(InvalidText);
      }
      values := values[text[n][..at] := text[n][at + 1..]];
      assert text[..n + 1][..n] == text[..n];
    }
    assert text[..|text|] == text;
    var meta := Metadata((lib.trim)(Lookup(values, ID_KEY)), (lib.trim)(Lookup(values, NAME_KEY)),
                         (lib.trim)(Lookup(values, PATH_KEY)), (lib.trim)(Lookup(values, PROTO_KEY)));
    if meta.id == [] { return Failed(MissingId); }
    if meta.name == [] { return Failed(MissingName); }
    if meta.wsPath == [] || meta.wsPath[0] != SLASH { return Failed(MissingPath); }
    if meta.proto != PROTOCOL_VERSION { return Failed(UnsupportedProtocol); }
    return Parsed(meta);
  }

  /** The text record a node advertises. */
  function AdvertisedText(id: Bytes, name: Bytes, wsPath: Bytes): seq<Bytes> {
    [Pair(ID_KEY, id), Pair(NAME_KEY, name), Pair(PATH_KEY, wsPath), Pair(PROTO_KEY, PROTOCOL_VERSION)]
  }

  lemma {:induction false} LastOf(text: seq<Bytes>, key: Bytes, value: Bytes, wanted: Bytes)
    requires key != [] && EQUALS !in key
    ensures WellFormed(Pair(key, value))
    ensures LastValue(text + [Pair(key, value)], wanted) == if key == wanted then value else LastValue(text, wanted)
  {
    PairIsCut(key, value);
    assert (text + [Pair(key, value)])[..|text|] == text;
  }

  lemma {:induction false} LastOfFour(k1: Bytes, v1: Bytes, k2: Bytes, v2: Bytes, k3: Bytes, v3: Bytes, k4: Bytes, v4: Bytes,
                                      wanted: Bytes)
    requires IsKey(k1) && IsKey(k2) && IsKey(k3) && IsKey(k4)
    ensures LastValue([Pair(k1, v1), Pair(k2, v2), Pair(k3, v3), Pair(k4, v4)], wanted) ==
      if wanted == k4 then v4 else if wanted == k3 then v3 else if wanted == k2 then v2 else if wanted == k1 then v1 else []
    ensures WellFormed(Pair(k1, v1)) && WellFormed(Pair(k2, v2)) && WellFormed(Pair(k3, v3)) && WellFormed(Pair(k4, v4))
  {
    hide Pair;
    hide WellFormed;
    var t1 := [] + [Pair(k1, v1)];
    var t2 := t1 + [Pair(k2, v2)];
    var t3 := t2 + [Pair(k3, v3)];
    LastOf([], k1, v1, wanted);
    LastOf(t1, k2, v2, wanted);
    LastOf(t2, k3, v3, wanted);
    LastOf(t3, k4, v4, wanted);
    assert [Pair(k1, v1), Pair(k2, v2), Pair(k3, v3), Pair(k4, v4)] == t3 + [Pair(k4, v4)];
  }

  lemma {:induction false} KeysDiffer()
    ensures ID_KEY != NAME_KEY && ID_KEY != PATH_KEY && ID_KEY != PROTO_KEY
    ensures NAME_KEY != PATH_KEY && NAME_KEY != PROTO_KEY && PATH_KEY != PROTO_KEY
  {
    assert NAME_KEY[0] != PATH_KEY[0] && NAME_KEY[0] != PROTO_KEY[0] && PATH_KEY[0] != PROTO_KEY[0];
  }

  /** Every node reads back what any node advertises, whatever characters the id and the name hold,
      exactly when trimming leaves the id and the name non-empty, the path starting with a slash and
      the version alone. */
  lemma {:induction false} AdvertisedIsUnderstood(lib: Library, id: Bytes, name: Bytes, wsPath: Bytes)
    ensures MetadataOf(lib, AdvertisedText(id, name, wsPath))
         == Metadata((lib.trim)(id), (lib.trim)(name), (lib.trim)(wsPath), (lib.trim)(PROTOCOL_VERSION))
    ensures AcceptableText(lib, AdvertisedText(id, name, wsPath))
       <==> (lib.trim)(id) != [] && (lib.trim)(name) != [] && (lib.trim)(wsPath) != [] && (lib.trim)(wsPath)[0] == SLASH
            && (lib.trim)(PROTOCOL_VERSION) == PROTOCOL_VERSION
  {
    KeysDiffer();
    hide WellFormed;
    hide LastValue;
    hide Pair;
    var v := PROTOCOL_VERSION;
    LastOfFour(ID_KEY, id, NAME_KEY, name, PATH_KEY, wsPath, PROTO_KEY, v, ID_KEY);
    LastOfFour(ID_KEY, id, NAME_KEY, name, PATH_KEY, wsPath, PROTO_KEY, v, NAME_KEY);
    LastOfFour(ID_KEY, id, NAME_KEY, name, PATH_KEY, wsPath, PROTO_KEY, v, PATH_KEY);
    LastOfFour(ID_KEY, id, NAME_KEY, name, PATH_KEY, wsPath, PROTO_KEY, v, PROTO_KEY);
  }

  // ---- Addresses ----

  predicate UsableAddress(lib: Library, ip: Bytes) {
    ip != [] && !(lib.unspecified)(ip)
  }

  /** Some address prints like this. */
  predicate Covers(lib: Library, ips: seq<Bytes>, text: Bytes) {
    exists i :: 0 <= i < |ips| && (lib.printed)(ips[i]) == text
  }

  /** Only usable addresses that were given, no two printing alike, and all of those covered. */
  predicate Normalized(lib: Library, ips: seq<Bytes>, given: seq<Bytes>) {
    && (forall i :: 0 <= i < |ips| ==> ips[i] in given && UsableAddress(lib, ips[i]))
    && (forall i, j :: 0 <= i < j < |ips| ==> (lib.printed)(ips[i]) != (lib.printed)(ips[j]))
    && (forall ip :: ip in given && UsableAddress(lib, ip) ==> Covers(lib, ips, (lib.printed)(ip)))
  }

  lemma {:induction false} CoversMore(lib: Library, ips: seq<Bytes>, ip: Bytes, text: Bytes)
    ensures Covers(lib, ips + [ip], text) <==> Covers(lib, ips, text) || (lib.printed)(ip) == text
  {
    if Covers(lib, ips, text) {
      var i :| 0 <= i < |ips| && (lib.printed)(ips[i]) == text;
      assert (ips + [ip])[i] == ips[i];
    }
    assert (ips + [ip])[|ips|] == ip;
  }

  lemma {:induction false} AppendKeepsNormalized(lib: Library, ips: seq<Bytes>, given: seq<Bytes>, ip: Bytes)
    requires Normalized(lib, ips, given) && UsableAddress(lib, ip) && !Covers(lib, ips, (lib.printed)(ip))
    ensures Normalized(lib, ips + [ip], given + [ip])
  {
    forall other | other in given + [ip] && UsableAddress(lib, other)
      ensures Covers(lib, ips + [ip], (lib.printed)(other))
    {
      CoversMore(lib, ips, ip, (lib.printed)(other));
    }
  }

  lemma {:induction false} SkipKeepsNormalized(lib: Library, ips: seq<Bytes>, given: seq<Bytes>, ip: Bytes)
    requires Normalized(lib, ips, given) && (!UsableAddress(lib, ip) || Covers(lib, ips, (lib.printed)(ip)))
    ensures Normalized(lib, ips, given + [ip])
  {
  }

  /** The order in which the program finally sorts the addresses is not part of this model. */
  method NormalizeAddresses(lib: Library, given: seq<Bytes>) returns (ips: seq<Bytes>)
    ensures Normalized(lib, ips, given)
  {
    var seen: set<Bytes> := {};
    ips := [];
    for n := 0 to |given|
      invariant Normalized(lib, ips, given[..n])
      invariant forall text :: text in seen <==> Covers(lib, ips, text)
    {
      var ip := given[n];
      assert given[..n + 1] == given[..n] + [ip];
      if ip == [] || (lib.unspecified)(ip) || (lib.printed)(ip) in seen {
        SkipKeepsNormalized(lib, ips, given[..n], ip);
        continue;
      }
      AppendKeepsNormalized(lib, ips, given[..n], ip);
      forall text
        ensures text in seen + {(lib.printed)(ip)} <==> Covers(lib, ips + [ip], text)
      {
        CoversMore(lib, ips, ip, text);
      }
      ips, seen := ips + [ip], seen + {(lib.printed)(ip)};
    }
    assert given[..|given|] == given;
  }

  // ---- The whole entry ----

  /** What makes an entry describe a dialable peer. */
  predicate AcceptableEntry(lib: Library, entry: Option<Entry>) {
    && entry.Some? && AcceptableText(lib, entry.value.text) && entry.value.port != 0
    && exists ip :: ip in entry.value.ipv4 + entry.value.ipv6 && UsableAddress(lib, ip)
  }

  function HostOf(entry: Entry): Bytes {
    var n := |entry.hostName|;
    var host := if n > 0 && entry.hostName[n - 1] == DOT then entry.hostName[..n - 1] else entry.hostName;
    if host == [] then entry.instance else host
  }

  /** A host name loses one closing dot; when nothing is left the instance name stands in. */
  lemma {:induction false} HostExactly(entry: Entry)
    ensures entry.hostName == [] || entry.hostName == [DOT] ==> HostOf(entry) == entry.instance
    ensures |entry.hostName| > 1 && entry.hostName[|entry.hostName| - 1] == DOT ==> HostOf(entry) + [DOT] == entry.hostName
    ensures entry.hostName != [] && entry.hostName[|entry.hostName| - 1] != DOT ==> HostOf(entry) == entry.hostName
  {
    var n := |entry.hostName|;
    if n > 1 && entry.hostName[n - 1] == DOT {
      assert entry.hostName == entry.hostName[..n - 1] + [DOT];
    }
  }

  /** What each complaint about an entry says of it, in the order the checks are made. */
  predicate EntryRejected(lib: Library, entry: Option<Entry>, error: EntryError) {
    match error
    case NilEntry => entry.None?
    case MissingPort => entry.Some? && AcceptableText(lib, entry.value.text) && entry.value.port == 0
    case MissingAddresses =>
      && entry.Some? && AcceptableText(lib, entry.value.text) && entry.value.port != 0
      && forall ip :: ip in entry.value.ipv4 + entry.value.ipv6 ==> !UsableAddress(lib, ip)
    case _ => entry.Some? && TextRejected(lib, entry.value.text, error)
  }

  datatype Found = Found(id: NodeId, announcement: Announcement)

  /** What is read from an entry: everything its text record, its port and its names say, and its usable
      addresses. */
  predicate Reads(lib: Library, entry: Entry, found: Found) {
    var a := found.announcement;
    && Metadata(found.id, a.name, a.wsPath, a.proto) == MetadataOf(lib, entry.text)
    && a.port == entry.port && a.host == HostOf(entry) && Normalized(lib, a.addresses, entry.ipv4 + entry.ipv6)
  }

  /** Exactly the acceptable entries yield a peer, and every peer they yield can be dialled. */
  method PeerFromEntry(lib: Library, entry: Option<Entry>) returns (r: Parsed<Found>)
    ensures r.Parsed? <==> AcceptableEntry(lib, entry)
    ensures r.Failed? ==> EntryRejected(lib, entry, r.error)
    ensures r.Parsed? ==> Reads(lib, entry.value, r.value) && UsableAnnouncement(r.value.announcement)
  {
    if entry.None? { return Failed(NilEntry); }
    var e := entry.value;
    var parsed := ParseText(lib, e.text);
    if parsed.Failed? { return Failed(parsed.error); }
    if e.port == 0 { return Failed(MissingPort); }
    var addresses := NormalizeAddresses(lib, e.ipv4 + e.ipv6);
    if addresses == [] {
      assert forall ip :: ip in e.ipv4 + e.ipv6 ==> !UsableAddress(lib, ip);
      return Failed(MissingAddresses);
    }
    assert addresses[0] in e.ipv4 + e.ipv6 && UsableAddress(lib, addresses[0]);
    var meta := parsed.value;
    return Parsed(Found(meta.id, Announcement(meta.name, HostOf(e), e.port, addresses, meta.wsPath, meta.proto)));
  }
}
