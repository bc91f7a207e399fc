/**
 The properties that two peers tell each other when a connection begins: how they are
 written into a buffer and how the other side reads them.
 */
module Metadata {
  import opened Wire
  import opened Wrappers

  /** A name and a value as they are on the wire. */
  datatype Property = Property(name: seq<Byte>, value: seq<Byte>)

  // ---- what is written ----

  const NAME_LEN_SIZE := 1
  const VALUE_LEN_SIZE := 4

  /** Fits the lengths' fields. */
  predicate Fits(p: Property) {
    |p.name| <= 255 && |p.value| < 0x1_0000_0000
  }

  function Encode(p: Property): (b: seq<Byte>)
    requires Fits(p)
    ensures |b| == NAME_LEN_SIZE + |p.name| + VALUE_LEN_SIZE + |p.value|
  {
    [|p.name|] + p.name + PutU32(|p.value|) + p.value
  }

  predicate AllFit(props: seq<Property>) {
    forall i :: 0 <= i < |props| ==> Fits(props[i])
  }

  function Written(props: seq<Property>): seq<Byte>
    requires AllFit(props)
  {
    if props == [] then [] else Encode(props[0]) + Written(props[1..])
  }

  lemma {:induction false} WrittenAppend(x: seq<Property>, y: seq<Property>)
    requires AllFit(x) && AllFit(y)
    ensures AllFit(x + y) && Written(x + y) == Written(x) + Written(y)
  {
    if x == [] {
      assert x + y == y;
    } else {
      assert (x + y)[1..] == x[1..] + y;
      WrittenAppend(x[1..], y);
      assert Encode(x[0]) + (Written(x[1..]) + Written(y)) == (Encode(x[0]) + Written(x[1..])) + Written(y);
    }
  }

  // ---- the options of a socket ----

  datatype SocketType = Pair | Pub | Sub | Req | Rep | Dealer | Router | Pull | Push | Xpub | Xsub | Stream

  function Name(t: SocketType): string {
    match t
    case Pair => "PAIR"
    case Pub => "PUB"
    case Sub => "SUB"
    case Req => "REQ"
    case Rep => "REP"
    case Dealer => "DEALER"
    case Router => "ROUTER"
    case Pull => "PULL"
    case Push => "PUSH"
    case Xpub => "XPUB"
    case Xsub => "XSUB"
    case Stream => "STREAM"
  }

  function Bytes(s: string): (b: seq<Byte>)
    ensures |b| == |s| && forall i :: 0 <= i < |s| ==> b[i] == s[i] as int % 256
  {
    seq(|s|, i requires 0 <= i < |s| => s[i] as int % 256)
  }

  const SOCKET_TYPE: seq<Byte> := Bytes("Socket-Type")
  const IDENTITY: seq<Byte> := Bytes("Identity")

  /** `appMetadata` are the entries of a map in its order, whose names all begin with `X-`;
      the strings may contain zeros, at which they are cut off when they are written. */
  datatype Options = Options(socketType: SocketType, routingId: seq<Byte>, recvRoutingId: bool,
          appMetadata: seq<(seq<Byte>, seq<Byte>)>)

  predicate OptionsOk(o: Options) {
    && |o.routingId| <= 255
    && forall i :: 0 <= i < |o.appMetadata| ==> AppName(o.appMetadata[i].0) && |CStr(o.appMetadata[i].1)| <= 0x7FFF_FFFF
  }

  predicate AppName(name: seq<Byte>) {
    2 <= |name| <= 255 && name[0] == 'X' as int && name[1] == '-' as int
  }

  /** A string up to its first zero. */
  function CStr(s: seq<Byte>): (r: seq<Byte>)
    ensures r <= s && forall i :: 0 <= i < |r| ==> r[i] != 0
    ensures |r| < |s| ==> s[|r|] == 0
  {
    if s == [] || s[0] == 0 then [] else [s[0]] + CStr(s[1..])
  }

  predicate TellsIdentity(t: SocketType) {
    t == Req || t == Dealer || t == Router
  }

  function AppProperties(entries: seq<(seq<Byte>, seq<Byte>)>): (props: seq<Property>)
    ensures |props| == |entries| && forall i :: 0 <= i < |props| ==>
        props[i] == Property(CStr(entries[i].0), CStr(entries[i].1))
  {
    if entries == [] then []
    else
      AppProperties(entries[..|entries| - 1])
      + [Property(CStr(entries[|entries| - 1].0), CStr(entries[|entries| - 1].1))]
  }

  function BasicProperties(o: Options): (props: seq<Property>)
    requires OptionsOk(o)
    ensures AllFit(props)
  {
    [Property(SOCKET_TYPE, Bytes(Name(o.socketType)))]
    + (if TellsIdentity(o.socketType) then [Property(IDENTITY, o.routingId)] else [])
    + AppProperties(o.appMetadata)
  }

  // ---- writing ----

  /** Copies `s` into the buffer. */
  method Memcpy(ptr: array<Byte>, at: nat, s: seq<Byte>)
    requires at + |s| <= ptr.Length
    modifies ptr
    ensures ptr[..] == Patched(old(ptr[..]), at, s)
  {
    forall i | 0 <= i < |s| { ptr[at + i] := s[i]; }
  }

  /** `b` with `s` written over it from `at` on. */
  function Patched(b: seq<Byte>, at: nat, s: seq<Byte>): (r: seq<Byte>)
    requires at + |s| <= |b|
    ensures |r| == |b|
  {
    b[..at] + s + b[at + |s|..]
  }

  lemma PatchedTwice(b: seq<Byte>, at: nat, s: seq<Byte>, t: seq<Byte>)
    requires at + |s| + |t| <= |b|
    ensures Patched(Patched(b, at, s), at + |s|, t) == Patched(b, at, s + t)
  {
  }

  /** Writes one property; the capacity must be enough for it. */
  method AddProperty(ptr: array<Byte>, at: nat, capacity: nat, p: Property) returns (total: nat)
    requires at + capacity <= ptr.Length && |p.name| <= 255 && |p.value| <= 0x7FFF_FFFF && |Encode(p)| <= capacity
    modifies ptr
    ensures total == |Encode(p)| && ptr[..] == Patched(old(ptr[..]), at, Encode(p))
  {
    total := NAME_LEN_SIZE + |p.name| + VALUE_LEN_SIZE + |p.value|;
    AddHeader(ptr, at, p);
    ghost var b, h := old(ptr[..]), [|p.name|] + p.name + PutU32(|p.value|);
    Memcpy(ptr, at + NAME_LEN_SIZE + |p.name| + VALUE_LEN_SIZE, p.value);
    PatchedTwice(b, at, h, p.value);
  }

  /** The name and the length of the value. */
  method AddHeader(ptr: array<Byte>, at: nat, p: Property)
    requires Fits(p) && at + |Encode(p)| <= ptr.Length
    modifies ptr
    ensures ptr[..] == Patched(old(ptr[..]), at, [|p.name|] + p.name + PutU32(|p.value|))
  {
    ghost var b, n, v := ptr[..], [|p.name|], PutU32(|p.value|);
    ptr[at] := |p.name|;
    assert ptr[..] == Patched(b, at, n);
    Memcpy(ptr, at + NAME_LEN_SIZE, p.name);
    PatchedTwice(b, at, n, p.name);
    Memcpy(ptr, at + NAME_LEN_SIZE + |p.name|, PutU32(|p.value|));
    PatchedTwice(b, at, n + p.name, v);
  }

  /** The bytes that the basic properties take. */
  method BasicPropertiesLen(o: Options) returns (len: nat)
    requires OptionsOk(o)
    ensures len == |Written(BasicProperties(o))|
  {
    var metaLen := 0;
    for i := 0 to |o.appMetadata|
      invariant AllFit(AppProperties(o.appMetadata[..i])) && metaLen == |Written(AppProperties(o.appMetadata[..i]))|
    {
      NextEntry(o, i);
      metaLen := metaLen + (NAME_LEN_SIZE + |CStr(o.appMetadata[i].0)| + VALUE_LEN_SIZE + |CStr(o.appMetadata[i].1)|);
    }
    assert o.appMetadata[..|o.appMetadata|] == o.appMetadata;
    HeadLength(o);
    len := (NAME_LEN_SIZE + |SOCKET_TYPE| + VALUE_LEN_SIZE + |Name(o.socketType)|) + metaLen
           + if TellsIdentity(o.socketType) then NAME_LEN_SIZE + |IDENTITY| + VALUE_LEN_SIZE + |o.routingId| else 0;
  }

  /** What is written before the application's own properties. */
  function Head(o: Options): (props: seq<Property>)
    requires OptionsOk(o)
    ensures AllFit(props)
  {
    [Property(SOCKET_TYPE, Bytes(Name(o.socketType)))] + if TellsIdentity(o.socketType)
        then [Property(IDENTITY, o.routingId)] else []
  }

  lemma WrittenOne(p: Property)
    requires Fits(p)
    ensures Written([p]) == Encode(p)
  {
    assert [p][1..] == [];
  }

  lemma HeadLength(o: Options)
    requires OptionsOk(o)
    ensures AllFit(AppProperties(o.appMetadata))
        && Written(BasicProperties(o)) == Written(Head(o)) + Written(AppProperties(o.appMetadata))
    ensures var first := Encode(Property(SOCKET_TYPE, Bytes(Name(o.socketType))));
            Written(Head(o)) == first + if TellsIdentity(o.socketType) then Encode(Property(IDENTITY, o.routingId))
                else []
  {
    var first, second := Property(SOCKET_TYPE, Bytes(Name(o.socketType))), Property(IDENTITY, o.routingId);
    WrittenAppend(Head(o), AppProperties(o.appMetadata));
    WrittenOne(first);
    if TellsIdentity(o.socketType) {
      WrittenAppend([first], [second]);
      WrittenOne(second);
    } else {
      assert Head(o) == [first];
    }
  }

  lemma NextEntry(o: Options, i: nat)
    requires OptionsOk(o) && i < |o.appMetadata|
    ensures var p := Property(CStr(o.appMetadata[i].0), CStr(o.appMetadata[i].1));
            && Fits(p) && |p.value| <= 0x7FFF_FFFF
            && AllFit(AppProperties(o.appMetadata[..i])) && AllFit(AppProperties(o.appMetadata[..i + 1]))
            && Written(AppProperties(o.appMetadata[..i + 1])) == Written(AppProperties(o.appMetadata[..i])) + Encode(p)
  {
    var e, p := o.appMetadata, Property(CStr(o.appMetadata[i].0), CStr(o.appMetadata[i].1));
    assert AppProperties(e[..i + 1]) == AppProperties(e[..i]) + [p];
    WrittenAppend(AppProperties(e[..i]), [p]);
    WrittenOne(p);
  }

  lemma EntriesLeft(o: Options, i: nat)
    requires OptionsOk(o) && i <= |o.appMetadata|
    ensures AllFit(AppProperties(o.appMetadata[..i])) && AllFit(AppProperties(o.appMetadata))
    ensures |Written(AppProperties(o.appMetadata[..i]))| <= |Written(AppProperties(o.appMetadata))|
  {
    var props := AppProperties(o.appMetadata);
    assert props == AppProperties(o.appMetadata[..i]) + props[i..];
    WrittenAppend(AppProperties(o.appMetadata[..i]), props[i..]);
  }

  /** What is written before entry `i` of the application's properties. */
  function Done(o: Options, i: nat): seq<Byte>
    requires OptionsOk(o) && i <= |o.appMetadata|
  {
    Written(Head(o)) + Written(AppProperties(o.appMetadata[..i]))
  }

  lemma DoneNext(o: Options, i: nat)
    requires OptionsOk(o) && i < |o.appMetadata|
    ensures var p := Property(CStr(o.appMetadata[i].0), CStr(o.appMetadata[i].1));
            Fits(p) && |p.value| <= 0x7FFF_FFFF && Done(o, i + 1) == Done(o, i) + Encode(p)
                && |Done(o, i + 1)| <= |Written(BasicProperties(o))|
  {
    NextEntry(o, i);
    DoneFits(o, i + 1);
    Associative(Written(Head(o)), Written(AppProperties(o.appMetadata[..i])),
        Encode(Property(CStr(o.appMetadata[i].0), CStr(o.appMetadata[i].1))));
  }

  lemma DoneFits(o: Options, i: nat)
    requires OptionsOk(o) && i <= |o.appMetadata|
    ensures |Done(o, i)| <= |Written(BasicProperties(o))|
  {
    EntriesLeft(o, i);
    HeadLength(o);
  }

  lemma DoneAll(o: Options)
    requires OptionsOk(o)
    ensures Done(o, |o.appMetadata|) == Written(BasicProperties(o)) && Done(o, 0) == Written(Head(o))
        && |Written(Head(o))| <= |Written(BasicProperties(o))|
  {
    HeadLength(o);
    assert o.appMetadata[..|o.appMetadata|] == o.appMetadata;
  }

  /** Writes the basic properties from `at` on and nothing else; returns their length. */
  method AddBasicProperties(ptr: array<Byte>, at: nat, capacity: nat, o: Options) returns (len: nat)
    requires OptionsOk(o) && at + capacity <= ptr.Length && |Written(BasicProperties(o))| <= capacity
    modifies ptr
    ensures len == |Written(BasicProperties(o))| && ptr[..] == Patched(old(ptr[..]), at, Written(BasicProperties(o)))
  {
    DoneAll(o);
    len := AddHead(ptr, at, capacity, o);
    for i := 0 to |o.appMetadata|
      invariant len == |Done(o, i)| <= capacity && ptr[..] == Patched(old(ptr[..]), at, Done(o, i))
    {
      DoneNext(o, i);
      var p := Property(CStr(o.appMetadata[i].0), CStr(o.appMetadata[i].1));
      var total := AddBehind(ptr, at, len, capacity, old(ptr[..]), Done(o, i), p);
      len := len + total;
    }
  }

  method AddHead(ptr: array<Byte>, at: nat, capacity: nat, o: Options) returns (len: nat)
    requires OptionsOk(o) && at + capacity <= ptr.Length && |Written(Head(o))| <= capacity
    modifies ptr
    ensures len == |Written(Head(o))| && ptr[..] == Patched(old(ptr[..]), at, Written(Head(o)))
  {
    var first, second := Property(SOCKET_TYPE, Bytes(Name(o.socketType))), Property(IDENTITY, o.routingId);
    HeadParts(o, first, second);
    len := AddProperty(ptr, at, capacity, first);
    if TellsIdentity(o.socketType) {
      var n := AddBehind(ptr, at, len, capacity, old(ptr[..]), Encode(first), second);
      len := len + n;
    }
  }

  lemma HeadParts(o: Options, first: Property, second: Property)
    requires OptionsOk(o) && first == Property(SOCKET_TYPE, Bytes(Name(o.socketType)))
        && second == Property(IDENTITY, o.routingId)
    ensures |first.name| <= 255 && |first.value| <= 0x7FFF_FFFF && |second.name| <= 255 && |second.value| <= 0x7FFF_FFFF
    ensures TellsIdentity(o.socketType) ==> Written(Head(o)) == Encode(first) + Encode(second)
    ensures !TellsIdentity(o.socketType) ==> Written(Head(o)) == Encode(first)
  {
    HeadLength(o);
  }

  /** Writes a property behind the `len` bytes `done` that were written over `b` before. */
  method AddBehind(ptr: array<Byte>, at: nat, len: nat, capacity: nat, ghost b: seq<Byte>, ghost done: seq<Byte>,
          p: Property) returns (total: nat)
    requires at + capacity <= ptr.Length && |p.name| <= 255 && |p.value| <= 0x7FFF_FFFF && len == |done|
        && len + |Encode(p)| <= capacity
    requires |b| == ptr.Length && ptr[..] == Patched(b, at, done)
    modifies ptr
    ensures total == |Encode(p)| && ptr[..] == Patched(b, at, done + Encode(p))
  {
    total := AddProperty(ptr, at + len, capacity - len, p);
    PatchedTwice(b, at, done, Encode(p));
  }

  // ---- reading ----

  /** The properties found, and whether nothing is left behind them. */
  datatype Parse = Parse(props: seq<Property>, ok: bool)

  /** What the loop of `parse_metadata` finds in `b`.  Where it stops inside a property,
      the input is taken for complete if that happens to be at its end. */
  function Scan(b: seq<Byte>): (r: Parse)
    ensures AllFit(r.props)
  {
    if |b| <= 1 then Parse([], b == [])
    else
      var nameLength, b1 := b[0], b[1..];
      if |b1| < nameLength then Parse([], b1 == [])
      else
        var b2 := b1[nameLength..];
        if |b2| < VALUE_LEN_SIZE then Parse([], b2 == [])
        else
          GetFits(b2);
          var valueLength, b3 := GetU32(b2), b2[VALUE_LEN_SIZE..];
          if |b3| < valueLength then Parse([], b3 == [])
          else
            var r := Scan(b3[valueLength..]);
            Parse([Property(b1[..nameLength], b3[..valueLength])] + r.props, r.ok)
  }

  /** A property of which everything behind its name, or behind the length of its value,
      is missing although it should be there. */
  predicate IsCut(t: seq<Byte>) {
    || t == []
    || (|t| >= 2 && |t| == NAME_LEN_SIZE + t[0])
    || (|t| >= NAME_LEN_SIZE + VALUE_LEN_SIZE && |t| == NAME_LEN_SIZE + t[0] + VALUE_LEN_SIZE
        && GetU32(t[NAME_LEN_SIZE + t[0]..]) > 0)
  }

  lemma EncodeParts(p: Property, rest: seq<Byte>)
    requires Fits(p)
    ensures var b := Encode(p) + rest;
            && b[0] == |p.name| && b[1..][..|p.name|] == p.name && GetU32(b[1..][|p.name|..]) == |p.value|
            && b[1..][|p.name|..][VALUE_LEN_SIZE..] == p.value + rest
  {
    var b := Encode(p) + rest;
    assert b == [|p.name|] + (p.name + (PutU32(|p.value|) + (p.value + rest)));
    assert b[1..] == p.name + (PutU32(|p.value|) + (p.value + rest));
    assert b[1..][|p.name|..] == PutU32(|p.value|) + (p.value + rest);
    GetPut(|p.value|, p.value + rest);
  }

  /** A property in front is found first. */
  lemma ScanStep(p: Property, rest: seq<Byte>)
    requires Fits(p)
    ensures Scan(Encode(p) + rest) == Parse([p] + Scan(rest).props, Scan(rest).ok)
  {
    EncodeParts(p, rest);
    assert (p.value + rest)[|p.value|..] == rest && (p.value + rest)[..|p.value|] == p.value;
  }

  lemma ScanCut(t: seq<Byte>)
    requires IsCut(t)
    ensures Scan(t) == Parse([], true)
  {
  }

  /** Complete properties, possibly followed by one that was cut, are accepted. */
  lemma {:induction false} ScanWritten(props: seq<Property>, cut: seq<Byte>)
    requires AllFit(props) && IsCut(cut)
    ensures Scan(Written(props) + cut) == Parse(props, true)
    decreases |props|
  {
    if props == [] {
      assert Written(props) + cut == cut;
      ScanCut(cut);
    } else {
      ScanWritten(props[1..], cut);
      ScanStep(props[0], Written(props[1..]) + cut);
      Associative(Encode(props[0]), Written(props[1..]), cut);
      assert [props[0]] + props[1..] == props;
    }
  }

  /** The parts of an input that begins with a complete property. */
  lemma DecodeParts(b: seq<Byte>, n: nat, v: nat)
    requires |b| >= 1 && n == b[0] && |b| >= NAME_LEN_SIZE + n + VALUE_LEN_SIZE && v == GetU32(b[1..][n..])
        && |b| >= NAME_LEN_SIZE + n + VALUE_LEN_SIZE + v
    ensures v < 0x1_0000_0000
    ensures var p := Property(b[1..][..n], b[1..][n..][VALUE_LEN_SIZE..][..v]);
        Fits(p) && b == Encode(p) + b[1..][n..][VALUE_LEN_SIZE..][v..]
  {
    var b1 := b[1..];
    var b2 := b1[n..];
    PutGet(b2);
    Rebuild(b, b[0], b1[..n], b2[..4], b2[4..][..v], b2[4..][v..]);
  }

  lemma Rebuild(b: seq<Byte>, x: Byte, name: seq<Byte>, len: seq<Byte>, value: seq<Byte>, rest: seq<Byte>)
    requires |b| >= 1 && x == b[0] && b[1..] == name + (len + (value + rest))
    ensures b == [x] + name + len + value + rest
  {
    assert b == [x] + b[1..];
  }

  /** Where nothing is found, only a cut property is taken for complete. */
  lemma ScanNothing(b: seq<Byte>)
    requires Scan(b).props == []
    ensures Scan(b).ok <==> IsCut(b)
  {
    if |b| > 1 && |b[1..]| >= b[0] { assert b[1..][b[0]..] == b[NAME_LEN_SIZE + b[0]..]; }
  }

  /** What is found is what the input begins with; what is left is a cut property exactly
      if the input is accepted. */
  lemma {:induction false} ScanFound(b: seq<Byte>)
    ensures var r := Scan(b); Written(r.props) <= b && (r.ok <==> IsCut(b[|Written(r.props)|..]))
    decreases |b|
  {
    var r := Scan(b);
    if r.props == [] {
      ScanNothing(b);
      assert b[0..] == b;
    } else {
      var n := b[0];
      var v := GetU32(b[1..][n..]);
      var rest := b[1..][n..][VALUE_LEN_SIZE..][v..];
      DecodeParts(b, n, v);
      ScanFound(rest);
      FoundOn(b, Property(b[1..][..n], b[1..][n..][VALUE_LEN_SIZE..][..v]), rest);
    }
  }

  lemma Behind(e: seq<Byte>, w: seq<Byte>, rest: seq<Byte>)
    requires w <= rest
    ensures e + w <= e + rest && (e + rest)[|e + w|..] == rest[|w|..]
  {
  }

  lemma FoundOn(b: seq<Byte>, p: Property, rest: seq<Byte>)
    requires Fits(p) && b == Encode(p) + rest && Written(Scan(rest).props) <= rest
    ensures Scan(b).ok == Scan(rest).ok && Written(Scan(b).props) <= b
    ensures b[|Written(Scan(b).props)|..] == rest[|Written(Scan(rest).props)|..]
  {
    ScanStep(p, rest);
    var props := Scan(rest).props;
    assert ([p] + props)[1..] == props && Written([p] + props) == Encode(p) + Written(props);
    Behind(Encode(p), Written(props), rest);
  }

  /** The input is the list `props`, possibly followed by a property that was cut. */
  predicate Reads(b: seq<Byte>, props: seq<Property>, cut: seq<Byte>) {
    AllFit(props) && IsCut(cut) && b == Written(props) + cut
  }

  lemma ReadsOnce(b: seq<Byte>, props: seq<Property>, cut: seq<Byte>)
    requires Reads(b, props, cut)
    ensures Scan(b) == Parse(props, true)
  {
    ScanWritten(props, cut);
  }

  lemma ReadsBack(b: seq<Byte>)
    requires Scan(b).ok
    ensures |Written(Scan(b).props)| <= |b|
    ensures Reads(b, Scan(b).props, b[|Written(Scan(b).props)|..])
  {
    ScanFound(b);
  }

  /** An input is accepted exactly if it is a list of complete properties, possibly followed
      by one cut right after its name or right after the length of its value; and then it
      is so in one way only. */
  lemma ParseExact(b: seq<Byte>)
    ensures Scan(b).ok <==> exists props, cut :: Reads(b, props, cut)
    ensures forall props, cut :: Reads(b, props, cut) ==> props == Scan(b).props
  {
    if Scan(b).ok { ReadsBack(b); }
    forall props, cut | Reads(b, props, cut) ensures props == Scan(b).props && Scan(b).ok { ReadsOnce(b, props, cut); }
  }

  /** The two bytes of a name of length one and nothing else are accepted, though they are
      no list of complete properties. */
  lemma CutAccepted(b: seq<Byte>)
    requires b == [1, 65]
    ensures Scan(b) == Parse([], true) && forall props | AllFit(props) :: Written(props) != b
  {
    assert IsCut(b);
    ScanCut(b);
    forall props | AllFit(props) ensures Written(props) != b {
      if Written(props) == b {
        assert Reads(b, props, []) by { assert Written(props) + [] == b; }
        ReadsOnce(b, props, []);
      }
    }
  }

  lemma TypeBytes()
    ensures SOCKET_TYPE == [83, 111, 99, 107, 101, 116, 45, 84, 121, 112, 101]
        && Bytes("DEALER") == [68, 69, 65, 76, 69, 82]
  {
  }

  lemma IdentityBytes()
    ensures IDENTITY == [73, 100, 101, 110, 116, 105, 116, 121]
  {
  }

  lemma EncodeBytes(p: Property, name: seq<Byte>, n: Byte, value: seq<Byte>)
    requires Fits(p) && p == Property(name, value) && |value| == n
    ensures Encode(p) == [|name|] + name + [0, 0, 0, n] + value
  {
    assert PutU32(n) == [0, 0, 0, n];
  }

  /** What a dealer without an identity of its own tells, byte by byte. */
  lemma DealerTells(o: Options)
    requires OptionsOk(o) && o.socketType == Dealer && o.routingId == [] && o.appMetadata == []
    ensures Written(BasicProperties(o)) ==
        [11] + [83, 111, 99, 107, 101, 116, 45, 84, 121, 112, 101] + [0, 0, 0, 6] + [68, 69, 65, 76, 69, 82]
        + ([8] + [73, 100, 101, 110, 116, 105, 116, 121] + [0, 0, 0, 0] + [])
  {
    var p, q := Property(SOCKET_TYPE, Bytes("DEALER")), Property(IDENTITY, []);
    TypeBytes();
    IdentityBytes();
    EncodeBytes(p, SOCKET_TYPE, 6, Bytes("DEALER"));
    EncodeBytes(q, IDENTITY, 0, []);
    assert BasicProperties(o) == [p] + [q];
    WrittenAppend([p], [q]);
    WrittenOne(p);
    WrittenOne(q);
  }

  // ---- what is done with a property ----

  /** The partners of a socket type. */
  function Partners(t: SocketType): set<SocketType> {
    match t
    case Req => {Rep, Router}
    case Rep => {Req, Dealer}
    case Dealer => {Rep, Dealer, Router}
    case Router => {Req, Dealer, Router}
    case Push => {Pull}
    case Pull => {Push}
    case Pub => {Sub, Xsub}
    case Sub => {Pub, Xpub}
    case Xpub => {Sub, Xsub}
    case Xsub => {Pub, Xpub}
    case Pair => {Pair}
    case Stream => {}
  }

  /** The pairs of sockets that talk to each other: what asks and answers, what pushes and
      pulls, what publishes and subscribes, and peers of one kind. */
  predicate Paired(a: SocketType, b: SocketType) {
    || (a == Req && b == Rep) || (a == Req && b == Router) || (a == Dealer && b == Rep) || (a == Dealer && b == Router)
    || (a == Dealer && b == Dealer) || (a == Router && b == Router)
    || (a == Push && b == Pull) || ((a == Pub || a == Xpub) && (b == Sub || b == Xsub)) || (a == Pair && b == Pair)
  }

  lemma PartnersPaired(a: SocketType, b: SocketType)
    ensures b in Partners(a) <==> Paired(a, b) || Paired(b, a)
  {
  }

  /** Exactly the sockets that can talk to a router tell their identity. */
  lemma IdentityForRouters(t: SocketType)
    ensures TellsIdentity(t) <==> Router in Partners(t)
  {
  }

  predicate CheckSocketType(t: SocketType, value: seq<Byte>) {
    exists p :: p in Partners(t) && value == Bytes(Name(p))
  }

  datatype Outcome = Accepted | WrongType | Vetoed | Malformed

  /** What a mechanism knows of its peer. */
  datatype Peer = Peer(zmtp: map<seq<Byte>, seq<Byte>>, zap: map<seq<Byte>, seq<Byte>>, routingId: seq<Byte>) {
    function Known(zapFlag: bool): map<seq<Byte>, seq<Byte>> {
      if zapFlag then zap else zmtp
    }

    /** An entry that is there already stays. */
    function Insert(p: Property, zapFlag: bool): Peer {
      if p.name in Known(zapFlag) then this
      else if zapFlag then this.(zap := zap[p.name := p.value]) else this.(zmtp := zmtp[p.name := p.value])
    }
  }

  /** One property; `vet` is the callback of the mechanism. */
  function Take(o: Options, vet: (seq<Byte>, seq<Byte>) -> bool, zapFlag: bool, s: Peer, p: Property): (Peer, Outcome) {
    if p.name == IDENTITY && o.recvRoutingId then (s.(routingId := p.value).Insert(p, zapFlag), Accepted)
    else if p.name == SOCKET_TYPE then
      if CheckSocketType(o.socketType, p.value) then (s.Insert(p, zapFlag), Accepted) else (s, WrongType)
    else if vet(p.name, p.value) then (s.Insert(p, zapFlag), Accepted)
    else (s, Vetoed)
  }

  /** The properties up to the first that is rejected. */
  function TakeAll(o: Options, vet: (seq<Byte>, seq<Byte>) -> bool, zapFlag: bool, s: Peer,
          props: seq<Property>): (Peer, Outcome)
    decreases |props|
  {
    if props == [] then (s, Accepted)
    else
      var (s', rc) := Take(o, vet, zapFlag, s, props[0]);
      if rc != Accepted then (s', rc) else TakeAll(o, vet, zapFlag, s', props[1..])
  }

  /** A property that is accepted: an identity that is asked for, the type of a partner, or
      what the mechanism lets through. */
  predicate Acceptable(o: Options, vet: (seq<Byte>, seq<Byte>) -> bool, p: Property) {
    if p.name == IDENTITY && o.recvRoutingId then true
    else if p.name == SOCKET_TYPE then exists t :: TalkTo(t, o.socketType) && p.value == Bytes(Name(t))
    else vet(p.name, p.value)
  }

  predicate TalkTo(a: SocketType, b: SocketType) {
    Paired(a, b) || Paired(b, a)
  }

  lemma AcceptedOne(o: Options, vet: (seq<Byte>, seq<Byte>) -> bool, zapFlag: bool, s: Peer, p: Property)
    ensures Take(o, vet, zapFlag, s, p).1 == Accepted <==> Acceptable(o, vet, p)
    ensures !Acceptable(o, vet, p) ==> Take(o, vet, zapFlag, s, p).0 == s
  {
    if CheckSocketType(o.socketType, p.value) {
      var t :| t in Partners(o.socketType) && p.value == Bytes(Name(t));
      PartnersPaired(o.socketType, t);
      assert TalkTo(t, o.socketType);
    }
    if t :| TalkTo(t, o.socketType) && p.value == Bytes(Name(t)) {
      PartnersPaired(o.socketType, t);
      assert t in Partners(o.socketType);
    }
  }

  /** All properties are taken if and only if each of them is acceptable; otherwise those
      before the first that is not are. */
  lemma {:induction false} AcceptedExact(o: Options, vet: (seq<Byte>, seq<Byte>) -> bool, zapFlag: bool, s: Peer,
          props: seq<Property>) returns (n: nat)
    ensures n <= |props| && (forall i :: 0 <= i < n ==> Acceptable(o, vet, props[i]))
    ensures n < |props| ==> !Acceptable(o, vet, props[n])
    ensures TakeAll(o, vet, zapFlag, s, props).1 == Accepted <==> n == |props|
    ensures TakeAll(o, vet, zapFlag, s, props).0 == TakeAll(o, vet, zapFlag, s, props[..n]).0
    decreases |props|
  {
    if props == [] {
      n := 0;
    } else {
      AcceptedOne(o, vet, zapFlag, s, props[0]);
      if Acceptable(o, vet, props[0]) {
        var s' := Take(o, vet, zapFlag, s, props[0]).0;
        var k := AcceptedExact(o, vet, zapFlag, s', props[1..]);
        n := k + 1;
        assert props[..n][1..] == props[1..][..k];
        assert forall i :: 0 < i < n ==> props[i] == props[1..][i - 1];
      } else {
        n := 0;
        assert props[..0] == [];
      }
    }
  }

  class Mechanism {
    const options: Options
    const vet: (seq<Byte>, seq<Byte>) -> bool
    var zmtpProperties: map<seq<Byte>, seq<Byte>>
    var zapProperties: map<seq<Byte>, seq<Byte>>
    var routingId: seq<Byte>

    function View(): Peer
      reads this
    {
      Peer(zmtpProperties, zapProperties, routingId)
    }

    constructor (options: Options, vet: (seq<Byte>, seq<Byte>) -> bool)
      ensures this.options == options && this.vet == vet && View() == Peer(map[], map[], [])
    {
      this.options, this.vet := options, vet;
      zmtpProperties, zapProperties, routingId := map[], map[], [];
    }

    method Insert(name: seq<Byte>, value: seq<Byte>, zapFlag: bool)
      modifies `zmtpProperties, `zapProperties
      ensures View() == old(View()).Insert(Property(name, value), zapFlag)
    {
      if zapFlag {
        if name !in zapProperties {
          zapProperties := zapProperties[name := value];
        }
      } else if name !in zmtpProperties {
        zmtpProperties := zmtpProperties[name := value];
      }
    }

    method TakeProperty(name: seq<Byte>, value: seq<Byte>, zapFlag: bool) returns (rc: Outcome)
      modifies this
      ensures (View(), rc) == Take(options, vet, zapFlag, old(View()), Property(name, value))
    {
      if name == IDENTITY && options.recvRoutingId {
        routingId := value;
      } else if name == SOCKET_TYPE {
        var partner := IsPartner(options.socketType, value);
        if !partner {
          return WrongType;
        }
      } else if !vet(name, value) {
        return Vetoed;
      }
      Insert(name, value, zapFlag);
      return Accepted;
    }

    static method IsPartner(t: SocketType, value: seq<Byte>) returns (yes: bool)
      ensures yes == CheckSocketType(t, value)
    {
      yes := match t
        case Req => value == Bytes(Name(Rep)) || value == Bytes(Name(Router))
        case Rep => value == Bytes(Name(Req)) || value == Bytes(Name(Dealer))
        case Dealer => value == Bytes(Name(Rep)) || value == Bytes(Name(Dealer)) || value == Bytes(Name(Router))
        case Router => value == Bytes(Name(Req)) || value == Bytes(Name(Dealer)) || value == Bytes(Name(Router))
        case Push => value == Bytes(Name(Pull))
        case Pull => value == Bytes(Name(Push))
        case Pub => value == Bytes(Name(Sub)) || value == Bytes(Name(Xsub))
        case Sub => value == Bytes(Name(Pub)) || value == Bytes(Name(Xpub))
        case Xpub => value == Bytes(Name(Sub)) || value == Bytes(Name(Xsub))
        case Xsub => value == Bytes(Name(Pub)) || value == Bytes(Name(Xpub))
        case Pair => value == Bytes(Name(Pair))
        case Stream => false;
    }

    /** The next complete property from `at` on, if there is one, and where the reading stops. */
    static method NextProperty(ptr: seq<Byte>, at: nat) returns (found: Option<Property>, end: nat)
      requires |ptr| - at > 1
      ensures at < end <= |ptr|
      ensures found.None? ==> Scan(ptr[at..]) == Parse([], end == |ptr|)
      ensures found.Some? ==> Scan(ptr[at..]) == Parse([found.value] + Scan(ptr[end..]).props, Scan(ptr[end..]).ok)
    {
      ghost var b := ptr[at..];
      end := at;
      var nameLength := ptr[end];
      end := end + NAME_LEN_SIZE;
      assert ptr[end..] == b[1..];
      if |ptr| - end < nameLength {
        return None, end;
      }
      var name := ptr[end..end + nameLength];
      assert name == b[1..][..nameLength];
      end := end + nameLength;
      assert ptr[end..] == b[1..][nameLength..];
      if |ptr| - end < VALUE_LEN_SIZE {
        return None, end;
      }
      var valueLength := GetU32(ptr[end..]);
      end := end + VALUE_LEN_SIZE;
      assert ptr[end..] == b[1..][nameLength..][VALUE_LEN_SIZE..];
      if |ptr| - end < valueLength {
        return None, end;
      }
      var value := ptr[end..end + valueLength];
      assert value == b[1..][nameLength..][VALUE_LEN_SIZE..][..valueLength];
      end := end + valueLength;
      assert ptr[end..] == b[1..][nameLength..][VALUE_LEN_SIZE..][valueLength..];
      found := Some(Property(name, value));
    }

    /** The properties that are found are taken up to the first that is rejected; if none
        is, the input has to be accepted (see `ParseExact`). */
    method ParseMetadata(ptr: seq<Byte>, zapFlag: bool) returns (rc: Outcome)
      modifies this
      ensures var (s, taken) := TakeAll(options, vet, zapFlag, old(View()), Scan(ptr).props);
              View() == s && rc == if taken != Accepted then taken else if Scan(ptr).ok then Accepted else Malformed
    {
      var at := 0;
      ghost var end := TakeAll(options, vet, zapFlag, View(), Scan(ptr).props);
      assert ptr[0..] == ptr;
      while |ptr| - at > 1
        invariant at <= |ptr|
        invariant TakeAll(options, vet, zapFlag, View(), Scan(ptr[at..]).props) == end
            && Scan(ptr[at..]).ok == Scan(ptr).ok
        decreases |ptr| - at
      {
        ghost var start := at;
        var found;
        found, at := NextProperty(ptr, at);
        if found.None? {
          break;
        }
        assert ([found.value] + Scan(ptr[at..]).props)[1..] == Scan(ptr[at..]).props;
        rc := TakeProperty(found.value.name, found.value.value, zapFlag);
        if rc != Accepted {
          return;
        }
      }
      if at < |ptr| {
        return Malformed;
      }
      return Accepted;
    }
  }

  // ---- both sides together ----

  predicate NamedIn(props: seq<Property>, name: seq<Byte>) {
    exists i :: 0 <= i < |props| && props[i].name == name
  }

  /** The value of the first property of that name. */
  function FirstValue(props: seq<Property>, name: seq<Byte>): seq<Byte>
    requires NamedIn(props, name)
  {
    if props[0].name == name then props[0].value else FirstValue(props[1..], name)
  }

  /** The value of the last property of that name, or `before`. */
  function LastValue(props: seq<Property>, name: seq<Byte>, before: seq<Byte>): seq<Byte> {
    if props == [] then before
    else if props[|props| - 1].name == name then props[|props| - 1].value
    else LastValue(props[..|props| - 1], name, before)
  }

  lemma NamedTail(props: seq<Property>, name: seq<Byte>)
    requires props != []
    ensures NamedIn(props, name) <==> props[0].name == name || NamedIn(props[1..], name)
  {
    if NamedIn(props, name) && props[0].name != name {
      var i :| 0 <= i < |props| && props[i].name == name;
      assert props[1..][i - 1].name == name;
    }
    if NamedIn(props[1..], name) {
      var i :| 0 <= i < |props| - 1 && props[1..][i].name == name;
      assert props[i + 1].name == name;
    }
  }

  lemma {:induction false} LastTail(props: seq<Property>, name: seq<Byte>, before: seq<Byte>)
    requires props != []
    ensures LastValue(props, name, before)
        == LastValue(props[1..], name, if props[0].name == name then props[0].value else before)
    decreases |props|
  {
    var n := |props| - 1;
    if n > 0 && props[n].name != name {
      assert props[1..][..n - 1] == props[..n][1..] && props[1..][n - 1] == props[n];
      LastTail(props[..n], name, before);
    } else if n > 0 {
      assert props[1..][n - 1] == props[n];
    }
  }

  /** What the first of some properties and the others do to the map of properties. */
  ghost predicate Learnt(known: map<seq<Byte>, seq<Byte>>, known': map<seq<Byte>, seq<Byte>>, props: seq<Property>) {
    forall name ::
      if name in known then name in known' && known'[name] == known[name]
      else
        && (name in known' <==> NamedIn(props, name))
        && (name in known' ==> known'[name] == FirstValue(props, name))
  }

  lemma LearntOn(known: map<seq<Byte>, seq<Byte>>, known': map<seq<Byte>, seq<Byte>>, props: seq<Property>)
    requires props != [] && var p := props[0];
        Learnt(if p.name in known then known else known[p.name := p.value], known', props[1..])
    ensures Learnt(known, known', props)
  {
    forall name ensures NamedIn(props, name) <==> props[0].name == name || NamedIn(props[1..], name) {
      NamedTail(props, name);
    }
  }

  /** Among duplicates the first one counts for the properties of the connection, but the
      last one for the routing id of the peer. */
  lemma {:induction false} FirstWins(o: Options, vet: (seq<Byte>, seq<Byte>) -> bool, zapFlag: bool, s: Peer,
          props: seq<Property>)
    requires TakeAll(o, vet, zapFlag, s, props).1 == Accepted
    ensures var s' := TakeAll(o, vet, zapFlag, s, props).0;
            && Learnt(s.Known(zapFlag), s'.Known(zapFlag), props) && s'.Known(!zapFlag) == s.Known(!zapFlag)
            && s'.routingId == if o.recvRoutingId then LastValue(props, IDENTITY, s.routingId) else s.routingId
    decreases |props|
  {
    if props != [] {
      var s1 := Take(o, vet, zapFlag, s, props[0]).0;
      FirstWins(o, vet, zapFlag, s1, props[1..]);
      LearntOn(s.Known(zapFlag), TakeAll(o, vet, zapFlag, s, props).0.Known(zapFlag), props);
      LastTail(props, IDENTITY, s.routingId);
    }
  }

  /** What one side writes the other reads back: exactly those properties. */
  lemma RoundTrip(o: Options)
    requires OptionsOk(o)
    ensures Scan(Written(BasicProperties(o))) == Parse(BasicProperties(o), true)
  {
    ScanWritten(BasicProperties(o), []);
    assert Written(BasicProperties(o)) + [] == Written(BasicProperties(o));
  }

  /** The length, the first, last and second byte of a name. */
  function Shape(t: SocketType): (int, int, int, int) {
    match t
    case Pair => (4, 80, 82, 65)
    case Pub => (3, 80, 66, 85)
    case Sub => (3, 83, 66, 85)
    case Req => (3, 82, 81, 69)
    case Rep => (3, 82, 80, 69)
    case Dealer => (6, 68, 82, 69)
    case Router => (6, 82, 82, 79)
    case Pull => (4, 80, 76, 85)
    case Push => (4, 80, 72, 85)
    case Xpub => (4, 88, 66, 80)
    case Xsub => (4, 88, 66, 83)
    case Stream => (6, 83, 77, 84)
  }

  lemma NameShape(t: SocketType)
    ensures var n := Bytes(Name(t)); |n| >= 3 && (|n|, n[0] as int, n[|n| - 1] as int, n[1] as int) == Shape(t)
  {
    var s := Name(t);
    match t
    case Pair => assert s[0] == 'P' && s[3] == 'R' && s[1] == 'A';
    case Pub => assert s[0] == 'P' && s[2] == 'B' && s[1] == 'U';
    case Sub => assert s[0] == 'S' && s[2] == 'B' && s[1] == 'U';
    case Req => assert s[0] == 'R' && s[2] == 'Q' && s[1] == 'E';
    case Rep => assert s[0] == 'R' && s[2] == 'P' && s[1] == 'E';
    case Dealer => assert s[0] == 'D' && s[5] == 'R' && s[1] == 'E';
    case Router => assert s[0] == 'R' && s[5] == 'R' && s[1] == 'O';
    case Pull => assert s[0] == 'P' && s[3] == 'L' && s[1] == 'U';
    case Push => assert s[0] == 'P' && s[3] == 'H' && s[1] == 'U';
    case Xpub => assert s[0] == 'X' && s[3] == 'B' && s[1] == 'P';
    case Xsub => assert s[0] == 'X' && s[3] == 'B' && s[1] == 'S';
    case Stream => assert s[0] == 'S' && s[5] == 'M' && s[1] == 'T';
  }

  lemma NamesDiffer(a: SocketType, b: SocketType)
    ensures Bytes(Name(a)) == Bytes(Name(b)) <==> a == b
  {
    NameShape(a);
    NameShape(b);
  }

  lemma PartnersSymmetric(a: SocketType, b: SocketType)
    ensures b in Partners(a) <==> a in Partners(b)
  {
  }

  /** Two sockets that tell each other their types either both agree or both refuse. */
  lemma TypesAgree(a: SocketType, b: SocketType)
    ensures CheckSocketType(a, Bytes(Name(b))) <==> b in Partners(a)
    ensures CheckSocketType(a, Bytes(Name(b))) <==> CheckSocketType(b, Bytes(Name(a)))
  {
    forall p: SocketType, q: SocketType ensures Bytes(Name(p)) == Bytes(Name(q)) <==> p == q { NamesDiffer(p, q); }
    PartnersSymmetric(a, b);
  }

  /** Names that only the application uses are not rejected, if the mechanism rejects nothing. */
  lemma {:induction false} OthersTaken(o: Options, vet: (seq<Byte>, seq<Byte>) -> bool, zapFlag: bool, s: Peer,
          props: seq<Property>)
    requires forall n, v :: vet(n, v)
    requires forall i :: 0 <= i < |props| ==> props[i].name != SOCKET_TYPE
    ensures TakeAll(o, vet, zapFlag, s, props).1 == Accepted
    decreases |props|
  {
    if props != [] { OthersTaken(o, vet, zapFlag, Take(o, vet, zapFlag, s, props[0]).0, props[1..]); }
  }

  lemma AppNames(o: Options, i: nat)
    requires OptionsOk(o) && i < |o.appMetadata|
    ensures CStr(o.appMetadata[i].0) != SOCKET_TYPE
  {
    assert SOCKET_TYPE[0] == 'S' as int;
  }

  /** A peer's basic properties are accepted exactly if its type is a partner of ours, and
      then it would accept ours. */
  lemma Handshake(peer: Options, o: Options, vet: (seq<Byte>, seq<Byte>) -> bool, zapFlag: bool, s: Peer)
    requires OptionsOk(peer) && forall n, v :: vet(n, v)
    ensures var r := Scan(Written(BasicProperties(peer)));
            r.ok && TakeAll(o, vet, zapFlag, s, r.props).1 == if peer.socketType in Partners(o.socketType) then Accepted
                else WrongType
  {
    RoundTrip(peer);
    var props := BasicProperties(peer);
    TypesAgree(o.socketType, peer.socketType);
    forall i | 0 <= i < |props[1..]| ensures props[1..][i].name != SOCKET_TYPE {
      var j := i - if TellsIdentity(peer.socketType) then 1 else 0;
      if j >= 0 {
        AppNames(peer, j);
      } else {
        assert |IDENTITY| != |SOCKET_TYPE|;
      }
    }
    OthersTaken(o, vet, zapFlag, s.Insert(props[0], zapFlag), props[1..]);
    assert SOCKET_TYPE != IDENTITY by { assert |IDENTITY| != |SOCKET_TYPE|; }
  }
}
