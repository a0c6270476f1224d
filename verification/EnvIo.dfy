/** Export and import of a whole environment. */
module EnvIo {
  import opened Bytes
  import opened EnvList
  import opened EnvText
  import opened EnvState

  /** A checksum of 32 bits. */
  type Check = v: int | 0 <= v < WORD

  /** A storage area: checksum and data. */
  datatype Image = Image(crc: Check, data: seq<Byte>)

  type Checksum = seq<Byte> -> Check

  /** The printed environment and its terminator fit the data area. */
  predicate Fits(s: State, size: nat) { |Print(Sort(s.ekv))| + 1 <= size }

  /** What a data area of this size holds after export; the bytes after the
      terminator are whatever was in memory. */
  ghost predicate Exported(s: State, size: nat, crc: Checksum, img: Image) {
    |img.data| == size && Occurs(img.data, 0, Print(Sort(s.ekv)) + [0]) && img.crc == crc(img.data)
  }

  // ---- import ----

  function SetAll(s: State, items: seq<Kv>): State {
    if |items| == 0 then s
    else SetVar(SetAll(s, items[..|items| - 1]), items[|items| - 1].key, Some(items[|items| - 1].value))
  }

  function FlagAll(s: State, items: seq<Kv>): State {
    if |items| == 0 then s
    else SetFlag(FlagAll(s, items[..|items| - 1]), items[|items| - 1].key, Some(items[|items| - 1].value))
  }

  lemma {:induction false} SetOneMore(s: State, done: seq<Kv>, kv: Kv)
    ensures SetAll(s, done + [kv]) == SetVar(SetAll(s, done), kv.key, Some(kv.value))
  {
    assert (done + [kv])[..|done|] == done;
  }

  lemma {:induction false} FlagOneMore(s: State, done: seq<Kv>, kv: Kv)
    ensures FlagAll(s, done + [kv]) == SetFlag(FlagAll(s, done), kv.key, Some(kv.value))
  {
    assert (done + [kv])[..|done|] == done;
  }

  datatype Result = Imported(end: End) | BadChecksum

  datatype Outcome = Outcome(state: State, result: Result)

  /** The flag list, once the variables are set. */
  function ImportFlags(s: State): Outcome {
    if FLAGS !in MapOf(s.ekv) then Outcome(s, Imported(Done))
    else
      var q := ParseFlags(MapOf(s.ekv)[FLAGS], 0);
      Outcome(FlagAll(s, q.items), Imported(q.end))
  }

  /** env_import into state s. */
  function Import(s: State, img: Image, crc: Checksum): Outcome {
    if crc(img.data) != img.crc then Outcome(s, BadChecksum)
    else
      var p := Parse(img.data, 0);
      var s1 := SetAll(s, p.items);
      if p.end != Done then Outcome(s1, Imported(p.end)) else ImportFlags(s1)
  }

  /** The import leaves the area exactly when the checksum is right and every
      record with a NUL is a variable. */
  lemma {:induction false} ImportFault(s: State, img: Image, crc: Checksum)
    ensures Import(s, img, crc).result == Imported(OffEnd) <==> crc(img.data) == img.crc && OnlyItems(img.data, 0)
  {
    OffEndIff(img.data, 0);
    var s1 := SetAll(s, Parse(img.data, 0).items);
    if FLAGS in MapOf(s1.ekv) { FlagsInside(MapOf(s1.ekv)[FLAGS], 0); }
  }

  // ---- variables ----

  /** New distinct keys are appended in order. */
  lemma {:induction false} SetAllAppends(items: seq<Kv>)
    requires Distinct(items)
    ensures SetAll(EMPTY, items) == State(items, [])
  {
    if |items| > 0 {
      var init, last := items[..|items| - 1], items[|items| - 1];
      SetAllAppends(init);
      assert Find(init, last.key) == |init|;
      assert items == init + [last];
    }
  }

  lemma {:induction false} ImportVars(s: State, size: nat, crc: Checksum, img: Image)
    requires Good(s) && Exported(s, size, crc, img)
    ensures Import(EMPTY, img, crc) == ImportFlags(State(Sort(s.ekv), []))
  {
    LegalAfterSort(s.ekv);
    ParsePrint(Sort(s.ekv), img.data, 0);
    MapOfSort(s.ekv);
    SetAllAppends(Sort(s.ekv));
  }

  // ---- flags ----

  lemma {:induction false} SortedInit(items: seq<Kv>)
    requires Sorted(items) && |items| > 0
    ensures Sorted(items[..|items| - 1]) && Find(items[..|items| - 1], items[|items| - 1].key) == |items| - 1
    ensures items == items[..|items| - 1] + [items[|items| - 1]]
  {
    var init, last := items[..|items| - 1], items[|items| - 1];
    var i := Find(init, last.key);
    LessTotal(last.key, last.key);
  }

  /** r is s with exactly these flags. */
  ghost predicate FlagsSet(s: State, r: State, items: seq<Kv>) {
    && Good(r) && r.fkv == items && MapOf(r.ekv) - {FLAGS} == MapOf(s.ekv) - {FLAGS}
    && (|items| > 0 ==> Maps(MapOf(r.ekv), FLAGS, Join(items)))
  }

  /** Setting a sorted list of flags one by one gives that list; other
      variables stay. */
  lemma {:induction false} FlagAllSorted(s: State, items: seq<Kv>)
    requires Good(s) && s.fkv == [] && Sorted(items) && LegalKeys(items)
    ensures FlagsSet(s, FlagAll(s, items), items)
    decreases |items|
  {
    if |items| == 0 {
      assert FlagAll(s, items) == s;
    } else {
      var init, last := items[..|items| - 1], items[|items| - 1];
      SortedInit(items);
      FlagAllSorted(s, init);
      LastFlag(s, init, last, items);
    }
  }

  lemma {:induction false} LastFlag(s: State, init: seq<Kv>, last: Kv, items: seq<Kv>)
    requires items == init + [last] && FlagsSet(s, FlagAll(s, init), init)
    requires Sorted(items) && Legal(last.key) && Find(init, last.key) == |init|
    ensures FlagsSet(s, FlagAll(s, items), items)
  {
    FlagOneMore(s, init, last);
    OneMoreFlag(s, FlagAll(s, init), init, last);
  }

  lemma {:induction false} OneMoreFlag(s: State, t: State, init: seq<Kv>, last: Kv)
    requires FlagsSet(s, t, init) && Sorted(init + [last]) && Legal(last.key) && Find(init, last.key) == |init|
    ensures FlagsSet(s, SetFlag(t, last.key, Some(last.value)), init + [last])
  {
    SortOfSorted(init + [last]);
    SetFlagDerived(t, last.key, Some(last.value));
  }

  /** Values of flags come from the list. */
  lemma {:induction false} FlagAllGood(s: State, items: seq<Kv>)
    requires Good(s) && NoCommas(s.fkv) && LegalKeys(items) && NoCommas(items)
    ensures var r := FlagAll(s, items);
            && Good(r) && NoCommas(r.fkv) && MapOf(r.ekv) - {FLAGS} == MapOf(s.ekv) - {FLAGS}
            && (|items| > 0 ==> Derived(r))
    decreases |items|
  {
    if |items| > 0 {
      var init, last := items[..|items| - 1], items[|items| - 1];
      var t := FlagAll(s, init);
      FlagAllGood(s, init);
      SetFlagDerived(t, last.key, Some(last.value));
      InsertNoCommas(t.fkv, last.key, last.value);
      InsertMap(t.fkv, last.key, last.value);
      SortNoCommas(Insert(t.fkv, last.key, last.value));
    }
  }

  lemma {:induction false} InsertNoCommas(kvs: seq<Kv>, k: CStr, v: CStr)
    requires NoCommas(kvs) && COMMA !in v
    ensures NoCommas(Insert(kvs, k, v))
  {}

  lemma {:induction false} SortNoCommas(kvs: seq<Kv>)
    requires Distinct(kvs) && NoCommas(kvs)
    ensures NoCommas(Sort(kvs))
  {
    SortCorrect(kvs);
    forall i | 0 <= i < |Sort(kvs)|
      ensures COMMA !in Sort(kvs)[i].value
    {
      assert Sort(kvs)[i] in multiset(kvs);
      var j :| 0 <= j < |kvs| && kvs[j] == Sort(kvs)[i];
    }
  }

  lemma {:induction false} NoCommasByMap(s: seq<Kv>, t: seq<Kv>)
    requires Distinct(s) && Distinct(t) && MapOf(s) == MapOf(t) && NoCommas(s)
    ensures NoCommas(t)
  {
    forall i | 0 <= i < |t|
      ensures COMMA !in t[i].value
    {
      ItemInMap(t, t[i]);
      ItemInMap(s, t[i]);
      var j :| 0 <= j < |s| && s[j] == t[i];
    }
  }

  // ---- round trip ----

  ghost predicate SameMaps(s: State, t: State) {
    MapOf(s.ekv) == MapOf(t.ekv) && MapOf(s.fkv) == MapOf(t.fkv)
  }

  /** A state whose flag variable and flag list say the same to the importer. */
  ghost predicate Settled(s: State) {
    && Good(s) && NoCommas(s.fkv)
    && (Derived(s) ||
        (s.fkv == [] && FLAGS in MapOf(s.ekv) && ParseFlags(MapOf(s.ekv)[FLAGS], 0).items == []))
  }

  lemma {:induction false} ImportFlagsSettled(s: State, e: seq<Kv>)
    requires Settled(s) && Distinct(e) && LegalKeys(e) && MapOf(e) == MapOf(s.ekv)
    ensures SameMaps(ImportFlags(State(e, [])).state, s)
    ensures Derived(s) ==> ImportFlags(State(e, [])).result == Imported(Done)
  {
    if Derived(s) && |s.fkv| > 0 {
      var f, t := Sort(s.fkv), State(e, []);
      SortCorrect(s.fkv);
      MapOfSort(s.fkv);
      LegalAfterSort(s.fkv);
      SortNoCommas(s.fkv);
      ParseJoin(f, Join(f), 0);
      FlagAllSorted(t, f);
      SameButFlags(MapOf(FlagAll(t, f).ekv), MapOf(e), Join(f));
    }
  }

  lemma {:induction false} SameButFlags(m: map<CStr, CStr>, n: map<CStr, CStr>, text: CStr)
    requires m - {FLAGS} == n - {FLAGS} && Maps(m, FLAGS, text) && Maps(n, FLAGS, text)
    ensures m == n
  {
    forall k: CStr
      ensures k in m <==> k in n
      ensures k in m && k in n ==> m[k] == n[k]
    {
      if k != FLAGS {
        assert k in m <==> k in m - {FLAGS};
        assert k in n <==> k in n - {FLAGS};
        if k in m && k in n { assert (m - {FLAGS})[k] == (n - {FLAGS})[k]; }
      }
    }
  }

  /** Exporting a settled state and importing it into a fresh context gives the
      same variables and flags. */
  lemma {:induction false} SettledRoundTrip(s: State, size: nat, crc: Checksum, img: Image)
    requires Settled(s) && Exported(s, size, crc, img)
    ensures SameMaps(Import(EMPTY, img, crc).state, s)
    ensures Derived(s) ==> Import(EMPTY, img, crc).result == Imported(Done)
  {
    ImportVars(s, size, crc, img);
    MapOfSort(s.ekv);
    LegalAfterSort(s.ekv);
    ImportFlagsSettled(s, Sort(s.ekv));
  }

  /** For every state reached by env_set and env_set_flag the round trip is
      exact if and only if no flag attribute contains a comma. */
  lemma {:induction false} RoundTrip(s: State, size: nat, crc: Checksum, img: Image)
    requires Derived(s) && Exported(s, size, crc, img)
    ensures Import(EMPTY, img, crc).result == Imported(Done) && SameMaps(Import(EMPTY, img, crc).state, s) <==>
            NoCommas(s.fkv)
  {
    if NoCommas(s.fkv) {
      SettledRoundTrip(s, size, crc, img);
    } else {
      ImportVars(s, size, crc, img);
      MapOfSort(s.ekv);
      LegalAfterSort(s.ekv);
      var t := State(Sort(s.ekv), []);
      ImportFlagsGood(t);
      if SameMaps(ImportFlags(t).state, s) { NoCommasByMap(ImportFlags(t).state.fkv, s.fkv); }
    }
  }

  lemma {:induction false} ImportFlagsGood(s: State)
    requires Good(s) && s.fkv == []
    ensures Settled(ImportFlags(s).state) && MapOf(ImportFlags(s).state.ekv) - {FLAGS} == MapOf(s.ekv) - {FLAGS}
  {
    if FLAGS in MapOf(s.ekv) {
      var text := MapOf(s.ekv)[FLAGS];
      ParsedNoCommas(text, 0);
      ParsedFlagsLegal(text, 0);
      FlagAllGood(s, ParseFlags(text, 0).items);
    }
  }

  // ---- what any import leaves ----

  lemma {:induction false} SetAllGood(s: State, items: seq<Kv>)
    requires Good(s) && LegalKeys(items)
    ensures Good(SetAll(s, items)) && SetAll(s, items).fkv == s.fkv
  {
    if |items| > 0 {
      var init, last := items[..|items| - 1], items[|items| - 1];
      SetAllGood(s, init);
      SetVarGood(SetAll(s, init), last.key, Some(last.value));
    }
  }

  /** Whatever a storage area holds, importing it leaves a settled state, unless
      its variable list breaks off after a raw flag list was set. */
  lemma {:induction false} ImportSettled(img: Image, crc: Checksum)
    ensures var o := Import(EMPTY, img, crc);
            && Good(o.state)
            && (o.result == BadChecksum || Parse(img.data, 0).end == Done || FLAGS !in MapOf(o.state.ekv) ==>
                  Settled(o.state))
  {
    if crc(img.data) == img.crc {
      var p := Parse(img.data, 0);
      ParsedLegal(img.data, 0);
      SetAllGood(EMPTY, p.items);
      if p.end == Done { ImportFlagsGood(SetAll(EMPTY, p.items)); }
    }
  }

  /** What an unsettled state after an import looks like. */
  lemma {:induction false} Unsettled(img: Image, crc: Checksum)
    requires !Settled(Import(EMPTY, img, crc).state)
    ensures var s := Import(EMPTY, img, crc).state;
            s.fkv == [] && FLAGS in MapOf(s.ekv) && ParseFlags(MapOf(s.ekv)[FLAGS], 0).items != []
  {
    ImportSettled(img, crc);
    ParsedLegal(img.data, 0);
    SetAllGood(EMPTY, Parse(img.data, 0).items);
  }

  lemma {:induction false} FlagAllNonempty(s: State, items: seq<Kv>)
    requires |items| > 0
    ensures |FlagAll(s, items).fkv| > 0
  {
    var last := items[|items| - 1];
    SortLength(Insert(FlagAll(s, items[..|items| - 1]).fkv, last.key, last.value));
  }

  /** Exporting and importing an unsettled state brings flags into being. */
  lemma {:induction false} UnsettledChanges(s: State, size: nat, crc: Checksum, img: Image)
    requires Good(s) && s.fkv == [] && FLAGS in MapOf(s.ekv) && ParseFlags(MapOf(s.ekv)[FLAGS], 0).items != []
    requires Exported(s, size, crc, img)
    ensures Settled(Import(EMPTY, img, crc).state) && |Import(EMPTY, img, crc).state.fkv| > 0
  {
    ImportVars(s, size, crc, img);
    MapOfSort(s.ekv);
    LegalAfterSort(s.ekv);
    var t := State(Sort(s.ekv), []);
    ImportFlagsGood(t);
    FlagAllNonempty(t, ParseFlags(MapOf(t.ekv)[FLAGS], 0).items);
  }

  /** One flag "a" with attribute "x,y" comes back as "x", and the rest of the
      text has no separator. */
  lemma {:induction false} CommaExample()
    ensures var f := Kv([97], [120, COMMA, 121]);
            ParseFlags(Join([f]), 0) == Parsed([Kv([97], [120])], NoSeparator)
  {
    var text: CStr := Join([Kv([97], [120, COMMA, 121])]);
    assert text == [97, COLON, 120, COMMA, 121];
    LocateIs(text, 0, COLON, 1);
    LocateIs(text, 2, COMMA, 3);
    LocateIs(text, 4, COLON, 5);
    assert text[0..1] == [97] && text[2..3] == [120];
    assert FlagAt(text, 4) == Stop(NoSeparator);
    assert FlagAt(text, 0) == Next(Kv([97], [120]), 4);
    assert ParseFlags(text, 4) == Parsed([], NoSeparator);
  }

  /** ".flags=a:b", then "x" */
  const HALF_READ: seq<Byte> := [46, 102, 108, 97, 103, 115, EQUALS, 97, COLON, 98, 0, 120, 0]

  lemma {:induction false} HalfReadItems()
    ensures Parse(HALF_READ, 0) == Parsed([Kv(FLAGS, [97, COLON, 98])], NoSeparator)
  {
    LocateIs(HALF_READ, 0, EQUALS, 6);
    LocateIs(HALF_READ, 0, 0, 10);
    LocateIs(HALF_READ, 11, 0, 12);
    LocateIs(HALF_READ, 11, EQUALS, 13);
    assert HALF_READ[0..6] == FLAGS && HALF_READ[7..10] == [97, COLON, 98];
    assert ItemAt(HALF_READ, 11) == Stop(NoSeparator);
    assert Parse(HALF_READ, 11) == Parsed([], NoSeparator);
    FlagsLegal();
    assert ItemAt(HALF_READ, 0) == Next(Kv(FLAGS, [97, COLON, 98]), 11);
  }

  /** An area whose import stops after the flag variable: the variable is set,
      the flag it names is not. */
  lemma {:induction false} UnsettledExample(crc: Checksum)
    ensures var s := Import(EMPTY, Image(crc(HALF_READ), HALF_READ), crc).state;
            s == State([Kv(FLAGS, [97, COLON, 98])], []) && !Settled(s)
  {
    HalfReadItems();
    var item := Kv(FLAGS, [97, COLON, 98]);
    SetAllAppends([item]);
    HalfReadUnsettled(item);
  }

  lemma {:induction false} HalfReadUnsettled(item: Kv)
    requires item == Kv(FLAGS, [97, COLON, 98])
    ensures !Settled(State([item], []))
  {
    HalfReadFlags();
    ItemInMap([item], item);
  }

  lemma {:induction false} HalfReadFlags()
    ensures ParseFlags([97, COLON, 98], 0).items != []
  {
    var text: CStr := [97, COLON, 98];
    LocateIs(text, 0, COLON, 1);
    LocateIs(text, 2, COMMA, 3);
  }
}
