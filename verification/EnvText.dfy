/** The printed environment and the printed flag list, and their parsers. */
module EnvText {
  import opened Bytes
  import opened EnvList

  const EQUALS: Byte := 61
  const COMMA: Byte := 44
  const COLON: Byte := 58
  const DOT: Byte := 46

  /** The three characters no name may contain. */
  predicate Legal(name: CStr) { EQUALS !in name && COMMA !in name && COLON !in name }

  ghost predicate LegalKeys(kvs: seq<Kv>) { forall i | 0 <= i < |kvs| :: Legal(kvs[i].key) }

  /** First place of c at or after `at`, or the length. */
  function Locate(s: seq<Byte>, at: nat, c: Byte): (i: nat)
    requires at <= |s|
    ensures at <= i <= |s| && (i < |s| ==> s[i] == c) && forall k | at <= k < i :: s[k] != c
    decreases |s| - at
  {
    if at == |s| || s[at] == c then at else Locate(s, at + 1, c)
  }

  lemma {:induction false} LocateIs(s: seq<Byte>, at: nat, c: Byte, i: nat)
    requires at <= i <= |s| && (i < |s| ==> s[i] == c) && forall k | at <= k < i :: s[k] != c
    ensures Locate(s, at, c) == i
    decreases i - at
  {
    if at < i { LocateIs(s, at + 1, c, i); }
  }

  /** The bytes w stand at `at`. */
  predicate Occurs(s: seq<Byte>, at: nat, w: seq<Byte>) {
    at + |w| <= |s| && s[at..at + |w|] == w
  }

  lemma {:induction false} OccursParts(s: seq<Byte>, at: nat, u: seq<Byte>, v: seq<Byte>)
    requires Occurs(s, at, u + v)
    ensures Occurs(s, at, u) && Occurs(s, at + |u|, v)
  {
    var w := u + v;
    assert s[at..at + |u|] == s[at..at + |w|][..|u|];
    assert s[at + |u|..at + |w|] == s[at..at + |w|][|u|..];
  }

  /** The first c is right after w. */
  lemma {:induction false} LocateAfter(s: seq<Byte>, at: nat, w: seq<Byte>, c: Byte)
    requires Occurs(s, at, w) && c !in w && (at + |w| == |s| || s[at + |w|] == c)
    ensures Locate(s, at, c) == at + |w|
  {
    forall k | at <= k < at + |w|
      ensures s[k] != c
    {
      assert s[at..at + |w|][k - at] == s[k];
    }
    LocateIs(s, at, c, at + |w|);
  }

  // ---- variables ----

  function Item(kv: Kv): seq<Byte> { kv.key + [EQUALS] + kv.value + [0] }

  function Print(kvs: seq<Kv>): seq<Byte> {
    if |kvs| == 0 then [] else Item(kvs[0]) + Print(kvs[1..])
  }

  datatype End = Done | NoSeparator | BadName | OffEnd

  datatype Parsed = Parsed(items: seq<Kv>, end: End)

  /** One turn of a parsing loop: it stops, or reads an item. */
  datatype Turn = Stop(end: End) | Next(kv: Kv, next: nat)

  /** The item at `at` of the data area; OffEnd is a scan that leaves the area. */
  function ItemAt(data: seq<Byte>, at: nat): (t: Turn)
    requires at <= |data|
    ensures t.Next? ==> at < t.next <= |data|
  {
    if at == |data| then Stop(OffEnd)
    else if data[at] == 0 then Stop(Done)
    else
      var z, e := Locate(data, at, 0), Locate(data, at, EQUALS);
      if z == |data| then Stop(OffEnd)
      else if e > z then Stop(NoSeparator)
      else Next(Kv(data[at..e], data[e + 1..z]), z + 1)
  }

  /** What env_import makes of the data area from `at` on: the items it sets and
      how the loop ends. */
  function Parse(data: seq<Byte>, at: nat): Parsed
    requires at <= |data|
    decreases |data| - at
  {
    match ItemAt(data, at)
    case Stop(end) => Parsed([], end)
    case Next(kv, next) =>
      if !Legal(kv.key) then Parsed([], BadName)
      else
        var rest := Parse(data, next);
        Parsed([kv] + rest.items, rest.end)
  }

  /** A record starts at i: at the beginning, or after a NUL. */
  predicate Starts(data: seq<Byte>, at: nat, i: nat) {
    at <= i < |data| && (i == at || data[i - 1] == 0)
  }

  /** The record at i has a separator before its NUL, after a legal name. The
      empty record, which ends the list, has none. */
  predicate IsItem(data: seq<Byte>, i: nat)
    requires i <= |data|
  {
    var z, e := Locate(data, i, 0), Locate(data, i, EQUALS);
    e < z && Legal(data[i..e])
  }

  /** Every record with a NUL is a variable. */
  ghost predicate OnlyItems(data: seq<Byte>, at: nat) {
    forall i: nat | Starts(data, at, i) && Locate(data, i, 0) < |data| :: IsItem(data, i)
  }

  /** The loop runs off the end of the area exactly when every record with a NUL
      is a variable: neither an empty record nor a bad one stops it. */
  lemma {:induction false} OffEndIff(data: seq<Byte>, at: nat)
    requires at <= |data|
    ensures Parse(data, at).end == OffEnd <==> OnlyItems(data, at)
    decreases |data| - at
  {
    if at < |data| {
      var z := Locate(data, at, 0);
      assert Starts(data, at, at);
      if z < |data| && IsItem(data, at) {
        OffEndIff(data, z + 1);
        RecordsAfter(data, at, z);
      }
    }
  }

  lemma {:induction false} RecordsAfter(data: seq<Byte>, at: nat, z: nat)
    requires at < |data| && z == Locate(data, at, 0) < |data| && IsItem(data, at)
    ensures OnlyItems(data, at) <==> OnlyItems(data, z + 1)
  {
    forall i: nat
      ensures Starts(data, z + 1, i) ==> Starts(data, at, i)
      ensures Starts(data, at, i) && i != at ==> Starts(data, z + 1, i)
    {
    }
  }

  /** "a=b" without a NUL runs off the end; "x" with one and "a" without is
      refused at the "x", though it has no terminator either. */
  lemma {:induction false} OffEndExamples()
    ensures Parse([97, EQUALS, 98], 0).end == OffEnd && Parse([120, 0, 97], 0).end == NoSeparator
  {
    LocateIs([97, EQUALS, 98], 0, 0, 3);
    LocateIs([120, 0, 97], 0, 0, 1);
    LocateIs([120, 0, 97], 0, EQUALS, 3);
  }

  /** Parsing undoes printing, whatever stands around it. */
  lemma {:induction false} ParsePrint(kvs: seq<Kv>, data: seq<Byte>, at: nat)
    requires LegalKeys(kvs) && Occurs(data, at, Print(kvs) + [0])
    ensures Parse(data, at) == Parsed(kvs, Done)
    decreases |kvs|
  {
    if |kvs| == 0 {
      assert Print(kvs) + [0] == [0];
      ParseEnd(data, at);
    } else {
      var kv, rest := kvs[0], kvs[1..];
      HeadAndRest(kvs);
      PrintParts(kvs, data, at);
      var next := at + |Item(kv)|;
      ParsePrint(rest, data, next);
      ParseItem(data, at, kv, next, Parse(data, next));
    }
  }

  lemma {:induction false} HeadAndRest(kvs: seq<Kv>)
    requires |kvs| > 0
    ensures [kvs[0]] + kvs[1..] == kvs
  {}

  lemma {:induction false} ParseEnd(data: seq<Byte>, at: nat)
    requires Occurs(data, at, [0])
    ensures Parse(data, at) == Parsed([], Done)
  {
    assert data[at] == data[at..at + 1][0];
  }

  lemma {:induction false} PrintParts(kvs: seq<Kv>, data: seq<Byte>, at: nat)
    requires |kvs| > 0 && Occurs(data, at, Print(kvs) + [0])
    ensures Occurs(data, at, Item(kvs[0])) && Occurs(data, at + |Item(kvs[0])|, Print(kvs[1..]) + [0])
  {
    var item, rest := Item(kvs[0]), Print(kvs[1..]);
    assert Print(kvs) + [0] == item + (rest + [0]);
    OccursParts(data, at, item, rest + [0]);
  }

  /** One printed item read back. */
  lemma {:induction false} ParseItem(data: seq<Byte>, at: nat, kv: Kv, next: nat, rest: Parsed)
    requires Occurs(data, at, Item(kv)) && Legal(kv.key) && next == at + |Item(kv)| && Parse(data, next) == rest
    ensures Parse(data, at) == Parsed([kv] + rest.items, rest.end)
  {
    ItemTurn(data, at, kv);
  }

  lemma {:induction false} ItemTurn(data: seq<Byte>, at: nat, kv: Kv)
    requires Occurs(data, at, Item(kv)) && Legal(kv.key)
    ensures ItemAt(data, at) == Next(kv, at + |Item(kv)|)
  {
    ItemPlaces(data, at, kv);
  }

  lemma {:induction false} ItemPlaces(data: seq<Byte>, at: nat, kv: Kv)
    requires Occurs(data, at, Item(kv)) && Legal(kv.key)
    ensures var e, z := at + |kv.key|, at + |Item(kv)| - 1;
            && Locate(data, at, EQUALS) == e && Locate(data, at, 0) == z && z < |data| && data[at] != 0
            && data[at..e] == kv.key && data[e + 1..z] == kv.value
  {
    var e := at + |kv.key|;
    var text := kv.key + [EQUALS] + kv.value;
    OccursParts(data, at, text, [0]);
    OccursParts(data, at, kv.key + [EQUALS], kv.value);
    OccursParts(data, at, kv.key, [EQUALS]);
    assert data[e] == data[e..e + 1][0] && data[at + |text|] == data[at + |text|..at + |text| + 1][0];
    LocateAfter(data, at, kv.key, EQUALS);
    LocateAfter(data, at, text, 0);
  }

  // ---- flags ----

  function Flag(kv: Kv): seq<Byte> { kv.key + [COLON] + kv.value }

  /** The items joined by commas. */
  function Join(kvs: seq<Kv>): (s: CStr)
    requires |kvs| > 0
  {
    if |kvs| == 1 then Flag(kvs[0]) else Flag(kvs[0]) + [COMMA] + Join(kvs[1..])
  }

  /** The flag at `at` of the list. */
  function FlagAt(s: CStr, at: nat): (t: Turn)
    requires at <= |s|
    ensures t.Next? ==> at < t.next <= |s| && COMMA !in t.kv.value
  {
    if at == |s| then Stop(Done)
    else
      var c := Locate(s, at, COLON);
      if c == |s| then Stop(NoSeparator)
      else
        var d := Locate(s, c + 1, COMMA);
        Next(Kv(s[at..c], s[c + 1..d]), if d < |s| then d + 1 else d)
  }

  /** What env_import makes of the flag list. */
  function ParseFlags(s: CStr, at: nat): Parsed
    requires at <= |s|
    decreases |s| - at
  {
    match FlagAt(s, at)
    case Stop(end) => Parsed([], end)
    case Next(kv, next) =>
      if !Legal(kv.key) then Parsed([], BadName)
      else
        var rest := ParseFlags(s, next);
        Parsed([kv] + rest.items, rest.end)
  }

  /** The flag list is a string: its loop stays inside. */
  lemma {:induction false} FlagsInside(s: CStr, at: nat)
    requires at <= |s|
    ensures ParseFlags(s, at).end != OffEnd
    decreases |s| - at
  {
    var t := FlagAt(s, at);
    if t.Next? { FlagsInside(s, t.next); }
  }

  ghost predicate NoCommas(kvs: seq<Kv>) { forall i | 0 <= i < |kvs| :: COMMA !in kvs[i].value }

  lemma {:induction false} ParseFlag(s: CStr, at: nat, kv: Kv, rest: Parsed)
    requires Occurs(s, at, Flag(kv)) && Legal(kv.key) && COMMA !in kv.value
    requires at + |Flag(kv)| == |s| || s[at + |Flag(kv)|] == COMMA
    requires var d := at + |Flag(kv)|; ParseFlags(s, if d < |s| then d + 1 else d) == rest
    ensures ParseFlags(s, at) == Parsed([kv] + rest.items, rest.end)
  {
    FlagPlaces(s, at, kv);
  }

  lemma {:induction false} FlagPlaces(s: CStr, at: nat, kv: Kv)
    requires Occurs(s, at, Flag(kv)) && Legal(kv.key) && COMMA !in kv.value
    requires at + |Flag(kv)| == |s| || s[at + |Flag(kv)|] == COMMA
    ensures var c, d := at + |kv.key|, at + |Flag(kv)|;
            && Locate(s, at, COLON) == c < |s| && Locate(s, c + 1, COMMA) == d
            && s[at..c] == kv.key && s[c + 1..d] == kv.value
            && FlagAt(s, at) == Next(kv, if d < |s| then d + 1 else d)
  {
    var c := at + |kv.key|;
    FlagParts(s, at, kv);
    LocateAfter(s, at, kv.key, COLON);
    LocateAfter(s, c + 1, kv.value, COMMA);
  }

  lemma {:induction false} FlagParts(s: CStr, at: nat, kv: Kv)
    requires Occurs(s, at, Flag(kv))
    ensures var c := at + |kv.key|;
            Occurs(s, at, kv.key) && c < |s| && s[c] == COLON && Occurs(s, c + 1, kv.value)
  {
    var c := at + |kv.key|;
    OccursParts(s, at, kv.key + [COLON], kv.value);
    OccursParts(s, at, kv.key, [COLON]);
    assert s[c] == s[c..c + 1][0];
  }

  /** Parsing undoes joining when no attribute has a comma. */
  lemma {:induction false} ParseJoin(kvs: seq<Kv>, s: CStr, at: nat)
    requires |kvs| > 0 && LegalKeys(kvs) && NoCommas(kvs)
    requires Occurs(s, at, Join(kvs)) && at + |Join(kvs)| == |s|
    ensures ParseFlags(s, at) == Parsed(kvs, Done)
    decreases |kvs|
  {
    var kv, rest := kvs[0], kvs[1..];
    if |kvs| == 1 {
      assert [kv] + [] == kvs;
      ParseFlag(s, at, kv, Parsed([], Done));
    } else {
      OccursParts(s, at, Flag(kv) + [COMMA], Join(rest));
      OccursParts(s, at, Flag(kv), [COMMA]);
      var d := at + |Flag(kv)|;
      assert s[d] == s[d..d + 1][0];
      ParseJoin(rest, s, d + 1);
      HeadAndRest(kvs);
      ParseFlag(s, at, kv, Parsed(rest, Done));
    }
  }

  /** No parsed attribute has a comma. */
  lemma {:induction false} ParsedNoCommas(s: CStr, at: nat)
    requires at <= |s|
    ensures NoCommas(ParseFlags(s, at).items)
    decreases |s| - at
  {
    var t := FlagAt(s, at);
    if t.Next? { ParsedNoCommas(s, t.next); }
  }

  lemma {:induction false} ParsedFlagsLegal(s: CStr, at: nat)
    requires at <= |s|
    ensures LegalKeys(ParseFlags(s, at).items)
    decreases |s| - at
  {
    var t := FlagAt(s, at);
    if t.Next? { ParsedFlagsLegal(s, t.next); }
  }

  lemma {:induction false} ParsedLegal(data: seq<Byte>, at: nat)
    requires at <= |data|
    ensures LegalKeys(Parse(data, at).items)
    decreases |data| - at
  {
    var t := ItemAt(data, at);
    if t.Next? { ParsedLegal(data, t.next); }
  }
}
