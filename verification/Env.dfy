/** env.c: the environment context and its methods. */
module Env {
  import opened Bytes
  import opened EnvList
  import opened EnvText
  import opened EnvState
  import IO = EnvIo

  const EINVALIDPARAM: int := 1003
  const EINVALIDSTATE: int := 1004

  /** A call's result, or an access outside the memory it was given. */
  datatype Status = Ret(code: int) | Fault

  /** strchr, or strlen with c = 0: a scan that may run off the end. */
  method Scan(s: seq<Byte>, at: nat, c: Byte) returns (i: nat)
    requires at <= |s|
    ensures i == Locate(s, at, c)
  {
    i := at;
    while i < |s| && s[i] != c
      invariant at <= i <= |s| && Locate(s, i, c) == Locate(s, at, c)
    {
      i := i + 1;
    }
  }

  /** env_get_item and env_get_item_index. */
  method GetItem(kvs: seq<Kv>, name: CStr) returns (i: nat)
    ensures i == Find(kvs, name)
  {
    i := 0;
    while i < |kvs|
      invariant 0 <= i <= |kvs| && Find(kvs, name) == i + Find(kvs[i..], name)
    {
      if kvs[i].key == name {
        return;
      }
      assert kvs[i..][1..] == kvs[i + 1..];
      i := i + 1;
    }
  }

  /** The loop that prints the flags, each with a comma after it; the last comma
      gives way to the terminator. */
  method JoinFlags(f: seq<Kv>) returns (text: CStr)
    requires |f| > 0
    ensures text == Join(f)
  {
    var value: seq<Byte> := [];
    for i := 0 to |f|
      invariant value == Commas(f[..i]) && 0 !in value
    {
      assert f[..i + 1][..i] == f[..i];
      value := value + f[i].key + [COLON] + f[i].value + [COMMA];
    }
    assert f[..|f|] == f;
    CommasJoin(f);
    text := value[..|value| - 1];
  }

  function Commas(f: seq<Kv>): seq<Byte> {
    if |f| == 0 then []
    else Commas(f[..|f| - 1]) + f[|f| - 1].key + [COLON] + f[|f| - 1].value + [COMMA]
  }

  lemma {:induction false} CommasFirst(f: seq<Kv>)
    requires |f| > 0
    ensures Commas(f) == EnvText.Flag(f[0]) + [COMMA] + Commas(f[1..])
  {
    if |f| > 1 {
      CommasFirst(f[..|f| - 1]);
      assert f[..|f| - 1][1..] == f[1..][..|f| - 2];
    } else {
      assert f[..0] == [] && f[1..] == [];
    }
  }

  lemma {:induction false} CommasJoin(f: seq<Kv>)
    requires |f| > 0
    ensures Commas(f) == Join(f) + [COMMA]
  {
    CommasFirst(f);
    if |f| > 1 { CommasJoin(f[1..]); } else { assert f[1..] == []; }
  }

  predicate Dotted(kv: Kv) { |kv.key| > 0 && kv.key[0] == DOT }

  /** Keys and items by their first character. */
  function Shown(kvs: seq<Kv>): seq<CStr> {
    if |kvs| == 0 then [] else (if Dotted(kvs[0]) then [] else [kvs[0].key]) + Shown(kvs[1..])
  }

  function Hidden(kvs: seq<Kv>): seq<Kv> {
    if |kvs| == 0 then [] else (if Dotted(kvs[0]) then [kvs[0]] else []) + Hidden(kvs[1..])
  }

  lemma {:induction false} HiddenJoin(s: seq<Kv>, t: seq<Kv>)
    ensures Hidden(s + t) == Hidden(s) + Hidden(t)
  {
    if |s| == 0 {
      assert s + t == t;
    } else {
      assert (s + t)[1..] == s[1..] + t && (s + t)[0] == s[0];
      HiddenJoin(s[1..], t);
    }
  }

  lemma {:induction false} AllHidden(s: seq<Kv>)
    requires forall i | 0 <= i < |s| :: Dotted(s[i])
    ensures Hidden(s) == s
  {
    if |s| > 0 { AllHidden(s[1..]); }
  }

  /** An iterator after the deletion of a key: one back when it stood behind the
      key. When there is no such key the code compares with an unset index. */
  function Deleted(next: int, kvs: seq<Kv>, name: CStr, junk: int): int {
    var idx := if Find(kvs, name) < |kvs| then Find(kvs, name) else junk;
    if next > idx then next - 1 else next
  }

  class Context {
    var ekv: seq<Kv>
    var fkv: seq<Kv>
    var enext: int
    var fnext: int

    function Value(): State reads this { State(ekv, fkv) }

    ghost predicate Valid()
      reads this
    {
      Good(Value())
    }

    constructor ()
      ensures Valid() && Value() == EMPTY && enext == 0 && fnext == 0
    {
      ekv, fkv, enext, fnext := [], [], 0, 0;
    }

    method Get(name: CStr) returns (value: Option<CStr>)
      requires Valid()
      ensures value == if name in MapOf(ekv) then Some(MapOf(ekv)[name]) else None
    {
      var i := GetItem(ekv, name);
      InKeys(ekv, name);
      value := if i < |ekv| then Some(ekv[i].value) else None;
    }

    /** env_set. Deleting an absent key leaves idx unset: `junk` stands for what
        happens to be there. */
    method Set(name: CStr, value: Option<CStr>, junk: int) returns (r: int)
      requires Valid()
      modifies this`ekv, this`enext
      ensures Valid() && r == if Legal(name) then 0 else -EINVALIDPARAM
      ensures Value() == Step(old(Value()), Var(name, value))
      ensures enext == if r == 0 && value.None? then old(Deleted(enext, ekv, name, junk)) else old(enext)
    {
      if !Legal(name) {
        return -EINVALIDPARAM;
      }
      SetVarGood(Value(), name, value);
      var i := GetItem(ekv, name);
      match value {
        case None =>
          var idx := junk;
          if i < |ekv| {
            idx := i;
            ekv := ekv[..i] + ekv[i + 1..];
          }
          if enext > idx {
            enext := enext - 1;
          }
        case Some(v) =>
          if i < |ekv| {
            ekv := ekv[i := Kv(name, v)];
          } else {
            ekv := ekv + [Kv(name, v)];
          }
      }
      return 0;
    }

    /** env_set_flag; `junk` and `junk'` are the unset indices of its deletions
        from the flags and from the variables. */
    method SetFlag(name: CStr, attr: Option<CStr>, junk: int, junk': int) returns (r: int)
      requires Valid()
      modifies this
      ensures Valid() && r == if Legal(name) then 0 else -EINVALIDPARAM
      ensures Value() == Step(old(Value()), EnvState.Flag(name, attr))
      ensures fnext == if r == 0 && attr.None? then old(Deleted(fnext, fkv, name, junk)) else old(fnext)
      ensures enext == if r == 0 && |fkv| == 0 then old(Deleted(enext, ekv, FLAGS, junk')) else old(enext)
    {
      if !Legal(name) {
        return -EINVALIDPARAM;
      }
      ListAfter(fkv, name, attr);
      ChangeFlags(name, attr, junk);
      SortLength(fkv);
      var text := SortFlags();
      r := Set(FLAGS, text, junk');
    }

    /** The flag list, sorted, and its text. */
    method SortFlags() returns (text: Option<CStr>)
      requires Valid()
      modifies this`fkv
      ensures Valid() && fkv == Sort(old(fkv)) && |fkv| == |old(fkv)| && Legal(FLAGS)
      ensures text == if |fkv| == 0 then None else Some(Join(fkv))
    {
      SortLength(fkv);
      MapOfSort(fkv);
      LegalAfterSort(fkv);
      FlagsLegal();
      text := None;
      if |fkv| > 0 {
        fkv := Sort(fkv);
        var joined := JoinFlags(fkv);
        text := Some(joined);
      }
    }

    /** Deletion from or insertion into the flag list. */
    method ChangeFlags(name: CStr, attr: Option<CStr>, junk: int)
      modifies this`fkv, this`fnext
      ensures fkv == old(if attr.None? then Delete(fkv, name) else Insert(fkv, name, attr.value))
      ensures fnext == if attr.None? then old(Deleted(fnext, fkv, name, junk)) else old(fnext)
    {
      var i := GetItem(fkv, name);
      match attr {
        case None =>
          var idx := junk;
          if i < |fkv| {
            idx := i;
            fkv := fkv[..i] + fkv[i + 1..];
          }
          if fnext > idx {
            fnext := fnext - 1;
          }
        case Some(a) =>
          if i < |fkv| {
            fkv := fkv[i := Kv(name, a)];
          } else {
            fkv := fkv + [Kv(name, a)];
          }
      }
    }

    /** env_get_key_next: skips dotted keys. A negative position would read
        before the list. */
    method KeyNext() returns (key: Option<CStr>, fault: bool)
      modifies this`enext
      ensures fault <==> old(enext) < 0 && |ekv| > 0
      ensures !fault && key.Some? ==>
                && 0 <= old(enext) < enext <= |ekv| && key == Some(ekv[enext - 1].key) && !Dotted(ekv[enext - 1])
                && forall i | old(enext) <= i < enext - 1 :: Dotted(ekv[i])
      ensures !fault && key.None? ==> forall i | 0 <= old(enext) <= i < |ekv| :: Dotted(ekv[i])
    {
      if enext < 0 && |ekv| > 0 {
        return None, true;
      }
      ghost var first := enext;
      while |ekv| > 0 && enext < |ekv|
        invariant first <= enext && (|ekv| > 0 ==> first >= 0)
        invariant forall i | 0 <= first <= i < enext && i < |ekv| :: Dotted(ekv[i])
        decreases |ekv| - enext
      {
        if Dotted(ekv[enext]) {
          enext := enext + 1;
          continue;
        }
        enext := enext + 1;
        return Some(ekv[enext - 1].key), false;
      }
      return None, false;
    }

    /** env_get_key_first */
    method KeyFirst() returns (key: Option<CStr>)
      modifies this`enext
      ensures key.Some? ==>
                && 0 < enext <= |ekv| && key == Some(ekv[enext - 1].key) && !Dotted(ekv[enext - 1])
                && forall i | 0 <= i < enext - 1 :: Dotted(ekv[i])
      ensures key.None? ==> forall i | 0 <= i < |ekv| :: Dotted(ekv[i])
    {
      enext := 0;
      var fault;
      key, fault := KeyNext();
    }

    /** env_prepare_io_ctx: the variables, sorted, printed into the data area.
        The space test uses the size with the checksum, four bytes too many. */
    method PrepareIo(data: array<Byte>) returns (fault: bool)
      requires Valid()
      modifies this`ekv, data
      ensures Valid() && ekv == Sort(old(ekv))
      ensures fault <==> Overruns(ekv, data.Length)
      ensures !fault ==> Occurs(data[..], 0, Print(ekv[..Kept(ekv, data.Length)]) + [0])
      ensures IO.Fits(old(Value()), data.Length) ==> !fault && Occurs(data[..], 0, Print(ekv) + [0])
    {
      MapOfSort(ekv);
      LegalAfterSort(ekv);
      ekv := Sort(ekv);
      fault := PrintAll(ekv, data);
      if |Print(ekv)| < data.Length { FittingKept(ekv, data.Length); }
    }

    /** env_export up to the write: the contents of the storage area, `memory`
        being what malloc returned. */
    method Export(memory: seq<Byte>, crc: IO.Checksum) returns (img: IO.Image, fault: bool)
      requires Valid()
      modifies this`ekv
      ensures Valid() && ekv == Sort(old(ekv))
      ensures fault <==> Overruns(ekv, |memory|)
      ensures |img.data| == |memory| && img.crc == crc(img.data)
      ensures !fault ==> Occurs(img.data, 0, Print(ekv[..Kept(ekv, |memory|)]) + [0])
      ensures IO.Fits(old(Value()), |memory|) ==> !fault && IO.Exported(old(Value()), |memory|, crc, img)
    {
      var data := new Byte[|memory|](k requires 0 <= k < |memory| => memory[k]);
      fault := PrepareIo(data);
      img := IO.Image(crc(data[..]), data[..]);
    }

    /** env_import */
    method Import(img: IO.Image, crc: IO.Checksum, junk: int) returns (r: Status)
      requires Valid()
      modifies this
      ensures Valid() && Value() == IO.Import(old(Value()), img, crc).state
      ensures r == match IO.Import(old(Value()), img, crc).result
                   case BadChecksum => Ret(-EINVALIDSTATE)
                   case Imported(end) => StatusOf(end)
      ensures r.Fault? <==> crc(img.data) == img.crc && OnlyItems(img.data, 0)
    {
      IO.ImportFault(Value(), img, crc);
      r := ImportImage(img, crc, junk);
    }

    method ImportImage(img: IO.Image, crc: IO.Checksum, junk: int) returns (r: Status)
      requires Valid()
      modifies this
      ensures Valid() && Value() == IO.Import(old(Value()), img, crc).state
      ensures r == match IO.Import(old(Value()), img, crc).result
                   case BadChecksum => Ret(-EINVALIDSTATE)
                   case Imported(end) => StatusOf(end)
    {
      if crc(img.data) != img.crc {
        return Ret(-EINVALIDSTATE);
      }
      r := ImportVars(img.data, junk);
      if r != Ret(0) {
        return;
      }
      r := ImportFlags(junk);
    }

    /** The loop over the data area. */
    method ImportVars(data: seq<Byte>, junk: int) returns (r: Status)
      requires Valid()
      modifies this`ekv, this`enext
      ensures Valid() && Value() == IO.SetAll(old(Value()), Parse(data, 0).items)
      ensures r == StatusOf(Parse(data, 0).end)
    {
      var name := 0;
      ghost var done: seq<Kv>, s := [], Value();
      while true
        invariant name <= |data| && Valid() && Value() == IO.SetAll(s, done)
        invariant Parse(data, 0) == After(done, Parse(data, name))
        decreases |data| - name
      {
        var turn := ReadItem(data, name);
        VarTurn(data, done, name, s);
        if turn.Stop? {
          return StatusOf(turn.end);
        }
        var err := Set(turn.kv.key, Some(turn.kv.value), junk);
        if err != 0 {
          return Ret(-EINVALIDSTATE);
        }
        done, name := done + [turn.kv], turn.next;
      }
    }

    /** The loop over a copy of the flag variable. */
    method ImportFlags(junk: int) returns (r: Status)
      requires Valid()
      modifies this
      ensures Valid() && Value() == IO.ImportFlags(old(Value())).state
      ensures r == StatusOf(IO.ImportFlags(old(Value())).result.end)
    {
      var flags := Get(FLAGS);
      if flags.None? {
        return Ret(0);
      }
      r := ParseFlagText(flags.value, junk);
    }

    method ParseFlagText(text: CStr, junk: int) returns (r: Status)
      requires Valid()
      modifies this
      ensures Valid() && Value() == IO.FlagAll(old(Value()), ParseFlags(text, 0).items)
      ensures r == StatusOf(ParseFlags(text, 0).end)
    {
      var name := 0;
      ghost var done: seq<Kv>, s := [], Value();
      while true
        invariant name <= |text| && Valid() && Value() == IO.FlagAll(s, done)
        invariant ParseFlags(text, 0) == After(done, ParseFlags(text, name))
        decreases |text| - name
      {
        var turn := ReadFlag(text, name);
        AfterStop(done, ParseFlags(text, name).end);
        if turn.Stop? {
          return StatusOf(turn.end);
        }
        var err := SetFlag(turn.kv.key, Some(turn.kv.value), junk, junk);
        if err != 0 {
          return Ret(-EINVALIDSTATE);
        }
        AfterOne(done, turn.kv, ParseFlags(text, turn.next));
        IO.FlagOneMore(s, done, turn.kv);
        done, name := done + [turn.kv], turn.next;
      }
    }

    /** A loop that deletes every key it is given: all keys without a dot, each
        once and in order; the dotted items stay. */
    method DeleteAll(junk: int) returns (visited: seq<CStr>)
      requires Valid()
      modifies this`ekv, this`enext
      ensures Valid() && visited == Shown(old(ekv)) && ekv == Hidden(old(ekv))
    {
      visited := [];
      var key := KeyFirst();
      while key.Some?
        invariant Valid() && LegalKeys(ekv)
        invariant key.Some? ==> 0 < enext <= |ekv| && key == Some(ekv[enext - 1].key) && !Dotted(ekv[enext - 1])
        invariant forall i | 0 <= i < (if key.Some? then enext - 1 else |ekv|) :: Dotted(ekv[i])
        invariant Swept(old(ekv), ekv, visited)
        decreases |ekv|
      {
        ghost var before, i := ekv, enext - 1;
        SweepOne(old(ekv), before, visited, i);
        visited := visited + [key.value];
        var r := Set(key.value, None, junk);
        var fault;
        key, fault := KeyNext();
      }
      AllHidden(ekv);
      NoneShown(ekv);
    }
  }

  lemma {:induction false} NoneShown(s: seq<Kv>)
    requires forall i | 0 <= i < |s| :: Dotted(s[i])
    ensures Shown(s) == []
  {
    if |s| > 0 { NoneShown(s[1..]); }
  }

  lemma {:induction false} ShownJoin(s: seq<Kv>, t: seq<Kv>)
    ensures Shown(s + t) == Shown(s) + Shown(t)
  {
    if |s| == 0 {
      assert s + t == t;
    } else {
      assert (s + t)[1..] == s[1..] + t && (s + t)[0] == s[0];
      ShownJoin(s[1..], t);
    }
  }

  /** The keys without a dot are the visited ones and those still there. */
  ghost predicate Swept(start: seq<Kv>, kvs: seq<Kv>, visited: seq<CStr>) {
    visited + Shown(kvs) == Shown(start) && Hidden(kvs) == Hidden(start)
  }

  lemma {:induction false} SweepOne(start: seq<Kv>, kvs: seq<Kv>, visited: seq<CStr>, i: nat)
    requires Swept(start, kvs, visited) && Distinct(kvs)
    requires i < |kvs| && !Dotted(kvs[i]) && forall j | 0 <= j < i :: Dotted(kvs[j])
    ensures Find(kvs, kvs[i].key) == i && Delete(kvs, kvs[i].key) == kvs[..i] + kvs[i + 1..]
    ensures Swept(start, kvs[..i] + kvs[i + 1..], visited + [kvs[i].key])
  {
    FindAt(kvs, i);
    DeleteOne(kvs, i);
  }

  /** Removing the first key without a dot. */
  lemma {:induction false} DeleteOne(s: seq<Kv>, i: nat)
    requires i < |s| && !Dotted(s[i]) && forall j | 0 <= j < i :: Dotted(s[j])
    ensures [s[i].key] + Shown(s[..i] + s[i + 1..]) == Shown(s)
    ensures Hidden(s[..i] + s[i + 1..]) == Hidden(s)
  {
    assert s == s[..i] + s[i..];
    ShownJoin(s[..i], s[i..]);
    HiddenJoin(s[..i], s[i..]);
    ShownJoin(s[..i], s[i + 1..]);
    HiddenJoin(s[..i], s[i + 1..]);
    NoneShown(s[..i]);
    assert s[i..][1..] == s[i + 1..];
  }

  /** How many items the space test lets through: it allows four bytes more than
      the data area has. */
  function Kept(kvs: seq<Kv>, size: nat): (k: nat)
    ensures k <= |kvs| && (k > 0 ==> |Print(kvs[..k])| < size + 4)
    ensures k < |kvs| ==> |Print(kvs[..k + 1])| >= size + 4
  {
    KeptFrom(kvs, size, 0)
  }

  function KeptFrom(kvs: seq<Kv>, size: nat, i: nat): (k: nat)
    requires i <= |kvs| && (i > 0 ==> |Print(kvs[..i])| < size + 4)
    ensures i <= k <= |kvs| && (k > 0 ==> |Print(kvs[..k])| < size + 4)
    ensures k < |kvs| ==> |Print(kvs[..k + 1])| >= size + 4
    decreases |kvs| - i
  {
    if i == |kvs| || |Print(kvs[..i + 1])| >= size + 4 then i else KeptFrom(kvs, size, i + 1)
  }

  /** The printed list, cut somewhere, ends in the four bytes behind the area. */
  ghost predicate Overruns(kvs: seq<Kv>, size: nat) {
    exists i: nat :: i <= |kvs| && size <= |Print(kvs[..i])| < size + 4
  }

  /** An area of eight bytes and the list "a=1", "b=23": its nine bytes pass the
      test. */
  lemma {:induction false} OverrunExample()
    ensures var kvs := [Kv([97], [49]), Kv([98], [50, 51])];
            Overruns(kvs, 8) && !Overruns(kvs, 10) && !Overruns(kvs, 5)
  {
    var kvs := [Kv([97], [49]), Kv([98], [50, 51])];
    assert kvs[..0] == [] && kvs[..1] == [kvs[0]] && kvs[..2] == kvs;
    PrintFirst(kvs, 0);
    PrintFirst(kvs, 1);
    assert |Print(kvs[..0])| == 0 && |Print(kvs[..1])| == 4 && |Print(kvs[..2])| == 9;
    assert Overruns(kvs, 8);
  }

  lemma {:induction false} PrintGrows(kvs: seq<Kv>, i: nat, j: nat)
    requires i <= j <= |kvs|
    ensures |Print(kvs[..i])| <= |Print(kvs[..j])|
    decreases j
  {
    if i < j {
      PrintGrows(kvs, i, j - 1);
      PrintFirst(kvs, j - 1);
    }
  }

  /** What stands in the way of the k-th prefix decides about all of them. */
  lemma {:induction false} OverrunsAt(kvs: seq<Kv>, size: nat, k: nat)
    requires k <= |kvs| && (k > 0 ==> |Print(kvs[..k])| < size + 4)
    requires k < |kvs| ==> |Print(kvs[..k + 1])| >= size + 4
    ensures k == Kept(kvs, size) && (Overruns(kvs, size) <==> |Print(kvs[..k])| >= size)
  {
    var m := Kept(kvs, size);
    if k < m { PrintGrows(kvs, k + 1, m); }
    if m < k { PrintGrows(kvs, m + 1, k); }
    assert kvs[..0] == [];
    forall i: nat | i <= |kvs|
      ensures i <= k ==> |Print(kvs[..i])| <= |Print(kvs[..k])|
      ensures i > k ==> |Print(kvs[..i])| >= size + 4
    {
      if i <= k { PrintGrows(kvs, i, k); } else { PrintGrows(kvs, k + 1, i); }
    }
  }

  lemma {:induction false} FittingKept(kvs: seq<Kv>, size: nat)
    requires |Print(kvs)| < size
    ensures Kept(kvs, size) == |kvs| && !Overruns(kvs, size) && kvs[..|kvs|] == kvs
  {
    assert kvs[..|kvs|] == kvs;
    OverrunsAt(kvs, size, |kvs|);
  }

  /** The loop of env_prepare_io_ctx. */
  method PrintAll(kvs: seq<Kv>, data: array<Byte>) returns (fault: bool)
    modifies data
    ensures fault <==> Overruns(kvs, data.Length)
    ensures !fault ==> Occurs(data[..], 0, Print(kvs[..Kept(kvs, data.Length)]) + [0])
  {
    var off, i := 0, 0;
    while i < |kvs|
      invariant 0 <= i <= |kvs| && 0 <= off <= data.Length && data[..off] == Print(kvs[..i])
    {
      PrintFirst(kvs, i);
      assert off == |data[..off]|;
      var n := |Item(kvs[i])|;
      if off + n >= data.Length + 4 {
        break;
      }
      if off + n > data.Length {
        assert data.Length <= |Print(kvs[..i + 1])| < data.Length + 4;
        return true;
      }
      CopyIn(data, off, Item(kvs[i]));
      off, i := off + n, i + 1;
    }
    assert off == |data[..off]|;
    OverrunsAt(kvs, data.Length, i);
    if off >= data.Length {
      return true;
    }
    data[off] := 0;
    assert data[..off + 1] == data[..off] + [0];
    return false;
  }

  /** The scans of one turn over the data area. */
  method ReadItem(data: seq<Byte>, name: nat) returns (t: Turn)
    requires name <= |data|
    ensures t == ItemAt(data, name)
  {
    if name == |data| {
      return Stop(OffEnd);
    }
    if data[name] == 0 {
      return Stop(Done);
    }
    var eq := Scan(data, name, EQUALS);
    var end := Scan(data, name, 0);
    if end == |data| {
      return Stop(OffEnd);
    }
    if eq > end {
      return Stop(NoSeparator);
    }
    return Next(Kv(data[name..eq], data[eq + 1..end]), end + 1);
  }

  /** The scans of one turn over the flag list. */
  method ReadFlag(text: CStr, name: nat) returns (t: Turn)
    requires name <= |text|
    ensures t == FlagAt(text, name)
  {
    if name == |text| {
      return Stop(Done);
    }
    var colon := Scan(text, name, COLON);
    if colon == |text| {
      return Stop(NoSeparator);
    }
    var comma := Scan(text, colon + 1, COMMA);
    return Next(Kv(text[name..colon], text[colon + 1..comma]), if comma < |text| then comma + 1 else comma);
  }

  function StatusOf(e: End): Status {
    match e
    case Done => Ret(0)
    case NoSeparator => Ret(-EINVALIDPARAM)
    case BadName => Ret(-EINVALIDSTATE)
    case OffEnd => Fault
  }

  /** Items already read, then the rest. */
  function After(done: seq<Kv>, rest: Parsed): Parsed { Parsed(done + rest.items, rest.end) }

  /** One turn of the loop over the data area. */
  lemma {:induction false} VarTurn(data: seq<Byte>, done: seq<Kv>, name: nat, s: State)
    requires name <= |data| && Parse(data, 0) == After(done, Parse(data, name))
    ensures match ItemAt(data, name)
            case Stop(end) => Parse(data, 0) == Parsed(done, end)
            case Next(kv, next) =>
              if !Legal(kv.key) then Parse(data, 0) == Parsed(done, BadName)
              else
                && Parse(data, 0) == After(done + [kv], Parse(data, next))
                && IO.SetAll(s, done + [kv]) == SetVar(IO.SetAll(s, done), kv.key, Some(kv.value))
  {
    AfterStop(done, Parse(data, name).end);
    var turn := ItemAt(data, name);
    if turn.Next? {
      AfterOne(done, turn.kv, Parse(data, turn.next));
      IO.SetOneMore(s, done, turn.kv);
    }
  }

  lemma {:induction false} AfterStop(done: seq<Kv>, e: End)
    ensures After(done, Parsed([], e)) == Parsed(done, e)
  {
    assert done + [] == done;
  }

  lemma {:induction false} AfterOne(done: seq<Kv>, kv: Kv, rest: Parsed)
    ensures After(done, Parsed([kv] + rest.items, rest.end)) == After(done + [kv], rest)
  {
    assert done + ([kv] + rest.items) == done + [kv] + rest.items;
  }

  lemma {:induction false} PrintSnoc(s: seq<Kv>, kv: Kv)
    ensures Print(s + [kv]) == Print(s) + Item(kv)
  {
    if |s| == 0 {
      assert s + [kv] == [kv] && [kv][1..] == [];
    } else {
      assert (s + [kv])[1..] == s[1..] + [kv];
      PrintSnoc(s[1..], kv);
    }
  }

  /** Every prefix prints no longer than the whole. */
  lemma {:induction false} PrintFirst(s: seq<Kv>, i: nat)
    requires i < |s|
    ensures Print(s[..i + 1]) == Print(s[..i]) + Item(s[i]) && |Print(s[..i + 1])| <= |Print(s)|
    decreases |s| - i
  {
    assert s[..i + 1] == s[..i] + [s[i]];
    PrintSnoc(s[..i], s[i]);
    if i + 1 < |s| { PrintFirst(s, i + 1); } else { assert s[..i + 1] == s; }
  }

  method CopyIn(data: array<Byte>, at: nat, bytes: seq<Byte>)
    requires at + |bytes| <= data.Length
    modifies data
    ensures data[..at + |bytes|] == old(data[..at]) + bytes
  {
    forall k | 0 <= k < |bytes| { data[at + k] := bytes[k]; }
  }
}
