/** The boot slot protocol of sbl-s2/main.c over its three environments. */
module EnvSlots {
  import opened Bytes
  import opened EnvList
  import opened EnvText
  import opened EnvState
  import opened EnvIo
  import opened EnvFlash
  import Env

  // "bootvol", "safe_bootvol", "tried_to_boot", "keep_uboot_env", "sbl-s2-ver"
  const BOOTVOL: CStr := [98, 111, 111, 116, 118, 111, 108]
  const SAFE: CStr := [115, 97, 102, 101, 95, 98, 111, 111, 116, 118, 111, 108]
  const TRIED: CStr := [116, 114, 105, 101, 100, 95, 116, 111, 95, 98, 111, 111, 116]
  const KEEP: CStr := [107, 101, 101, 112, 95, 117, 98, 111, 111, 116, 95, 101, 110, 118]
  const VERSION: CStr := [115, 98, 108, 45, 115, 50, 45, 118, 101, 114]

  // "a", "b", "true", "sr"
  const A: CStr := [97]
  const B: CStr := [98]
  const TRUE: CStr := [116, 114, 117, 101]
  const SR: CStr := [115, 114]

  lemma {:induction false} NamesDiffer()
    ensures BOOTVOL != SAFE && BOOTVOL != TRIED && BOOTVOL != VERSION && SAFE != TRIED && SAFE != VERSION
    ensures TRIED != VERSION && KEEP != BOOTVOL && KEEP != SAFE && KEEP != TRIED && KEEP != VERSION
    ensures FLAGS !in {BOOTVOL, SAFE, TRIED, KEEP, VERSION}
    ensures Legal(BOOTVOL) && Legal(SAFE) && Legal(TRIED) && Legal(VERSION)
  {
    assert BOOTVOL[0] == 98 && SAFE[0] == 115 && TRIED[0] == 116 && KEEP[0] == 107 && VERSION[0] == 115;
    assert SAFE[1] == 97 && VERSION[1] == 98 && FLAGS[0] == 46;
  }

  /** The variables, without the derived one. */
  function Vars(s: State): map<CStr, CStr> { MapOf(s.ekv) - {FLAGS} }

  // ---- one boot on the variables ----

  predicate HasVolumes(v: map<CStr, CStr>) { BOOTVOL in v && SAFE in v }

  function Prepare(v: map<CStr, CStr>, version: CStr): (r: map<CStr, CStr>)
    ensures HasVolumes(r)
  {
    (if HasVolumes(v) then v else v[BOOTVOL := A][SAFE := A])[VERSION := version]
  }

  function Select(v: map<CStr, CStr>): (r: map<CStr, CStr>)
    requires HasVolumes(v)
    ensures HasVolumes(r)
  {
    if v[BOOTVOL] == v[SAFE] then v
    else if TRIED in v then
      NamesDiffer();
      v[BOOTVOL := v[SAFE]] - {TRIED}
    else v[TRIED := TRUE]
  }

  function BootVars(v: map<CStr, CStr>, version: CStr): (r: map<CStr, CStr>)
    ensures HasVolumes(r)
  {
    Select(Prepare(v, version))
  }

  /** Variables after n boots. */
  function VarsAfter(v: map<CStr, CStr>, version: CStr, n: nat): map<CStr, CStr> {
    if n == 0 then v else BootVars(VarsAfter(v, version, n - 1), version)
  }

  /** The volume of boot number i, counted from 0. */
  function Booted(v: map<CStr, CStr>, version: CStr, i: nat): CStr {
    BootVars(VarsAfter(v, version, i), version)[BOOTVOL]
  }

  function SafeVolume(v: map<CStr, CStr>, version: CStr): CStr { Prepare(v, version)[SAFE] }

  /** Which volume is booted: "a" by default, the safe volume when it is the one
      asked for or the other has been tried, and else the one asked for, with the
      attempt marked. Other variables keep their values. */
  lemma {:induction false} BootLaw(v: map<CStr, CStr>, version: CStr)
    ensures var w := BootVars(v, version);
            && (!HasVolumes(v) ==> w[BOOTVOL] == [97] && w[SAFE] == [97] && (TRIED in w <==> TRIED in v))
            && (HasVolumes(v) ==> w[SAFE] == v[SAFE])
            && (HasVolumes(v) && v[BOOTVOL] == v[SAFE] ==> w[BOOTVOL] == v[SAFE] && (TRIED in w <==> TRIED in v))
            && (HasVolumes(v) && v[BOOTVOL] != v[SAFE] && TRIED !in v ==> w[BOOTVOL] == v[BOOTVOL] && TRIED in w)
            && (HasVolumes(v) && v[BOOTVOL] != v[SAFE] && TRIED in v ==> w[BOOTVOL] == v[SAFE] && TRIED !in w)
            && VERSION in w && w[VERSION] == version
            && forall k | k !in {BOOTVOL, SAFE, TRIED, VERSION} ::
                 (k in w <==> k in v) && (k in v ==> w[k] == v[k])
  {
    NamesDiffer();
  }

  lemma {:induction false} SafeStays(v: map<CStr, CStr>, version: CStr, n: nat)
    ensures Prepare(VarsAfter(v, version, n), version)[SAFE] == SafeVolume(v, version)
  {
    NamesDiffer();
    if n > 0 { SafeStays(v, version, n - 1); }
  }

  /** A boot of another volume than the safe one marks the attempt; the next
      boot takes the safe volume and clears the mark. */
  lemma {:induction false} AttemptThenFallback(v: map<CStr, CStr>, version: CStr)
    requires BootVars(v, version)[BOOTVOL] != SafeVolume(v, version)
    ensures var w := BootVars(v, version);
            && TRIED in w && w[BOOTVOL] == Prepare(v, version)[BOOTVOL]
            && BootVars(w, version)[BOOTVOL] == SafeVolume(v, version) && TRIED !in BootVars(w, version)
  {
    NamesDiffer();
  }

  lemma {:induction false} FallbackVars(v: map<CStr, CStr>, version: CStr)
    requires BootVars(v, version)[BOOTVOL] != SafeVolume(v, version) && KEEP !in v
    ensures var p := Prepare(BootVars(v, version), version);
            p[BOOTVOL] != p[SAFE] && TRIED in p && KEEP !in p
  {
    NamesDiffer();
  }

  lemma {:induction false} SafeStaysBooted(v: map<CStr, CStr>, version: CStr, i: nat, j: nat)
    requires i < j && VarsAfter(v, version, i + 1)[BOOTVOL] == SafeVolume(v, version)
    ensures Booted(v, version, j) == SafeVolume(v, version)
    ensures VarsAfter(v, version, j)[BOOTVOL] == SafeVolume(v, version)
    decreases j
  {
    NamesDiffer();
    if j > i + 1 { SafeStaysBooted(v, version, i, j - 1); }
    SafeStays(v, version, j);
    var w := VarsAfter(v, version, j);
    assert w == BootVars(VarsAfter(v, version, j - 1), version);
  }

  /** In every run of boots at most one boots a volume other than the safe one. */
  lemma {:induction false} AttemptedOnce(v: map<CStr, CStr>, version: CStr, i: nat, j: nat)
    requires i < j && Booted(v, version, i) != SafeVolume(v, version)
    ensures Booted(v, version, j) == SafeVolume(v, version)
    ensures j == i + 1 ==> TRIED !in VarsAfter(v, version, j + 1)
  {
    var w := VarsAfter(v, version, i);
    SafeStays(v, version, i);
    AttemptThenFallback(w, version);
    assert VarsAfter(v, version, i + 2) == BootVars(VarsAfter(v, version, i + 1), version);
    if j > i + 1 {
      SafeStaysBooted(v, version, i + 1, j);
    }
  }

  // ---- one boot on the environment and the storage ----

  function Lookup(s: State, name: CStr): Option<CStr> {
    if name in MapOf(s.ekv) then Some(MapOf(s.ekv)[name]) else None
  }

  predicate VolumesSet(s: State) { Lookup(s, BOOTVOL).Some? && Lookup(s, SAFE).Some? }

  function WithVolumes(s: State): State {
    if VolumesSet(s) then s else SetVar(SetVar(s, BOOTVOL, Some(A)), SAFE, Some(A))
  }

  /** prepare_env after its import. */
  function PrepareState(s: State, version: CStr): State {
    var s1 := WithVolumes(s);
    if Lookup(s1, VERSION) == Some(version) then s1
    else SetFlag(SetVar(s1, VERSION, Some(version)), VERSION, Some(SR))
  }

  predicate NeedExport(s: State, version: CStr) {
    !VolumesSet(s) || Lookup(WithVolumes(s), VERSION) != Some(version)
  }

  predicate Differs(s: State) { Lookup(s, BOOTVOL) != Lookup(s, SAFE) }

  /** select_slot on the SBL environment. */
  function SelectState(s: State): State {
    if !Differs(s) then s
    else if Lookup(s, TRIED).Some? then SetVar(SetVar(s, BOOTVOL, Lookup(s, SAFE)), TRIED, None)
    else SetVar(s, TRIED, Some(TRUE))
  }

  lemma {:induction false} SetVarVars(s: State, name: CStr, value: Option<CStr>)
    requires Good(s) && Legal(name) && name != FLAGS
    ensures Good(SetVar(s, name, value)) && Vars(SetVar(s, name, value)) == FlagsAfter(Vars(s), name, value)
  {
    SetVarGood(s, name, value);
    OtherKey(MapOf(s.ekv), FLAGS, name, value);
  }

  lemma {:induction false} LookupVars(s: State, name: CStr)
    requires name != FLAGS
    ensures Lookup(s, name) == if name in Vars(s) then Some(Vars(s)[name]) else None
  {}

  lemma {:induction false} WithVolumesVars(s: State)
    requires Good(s)
    ensures Good(WithVolumes(s)) && VolumesSet(WithVolumes(s))
    ensures Vars(WithVolumes(s)) == if HasVolumes(Vars(s)) then Vars(s) else Vars(s)[BOOTVOL := A][SAFE := A]
  {
    NamesDiffer();
    LookupVars(s, BOOTVOL);
    LookupVars(s, SAFE);
    if !VolumesSet(s) { TwoVars(s, BOOTVOL, SAFE, A); }
  }

  lemma {:induction false} TwoVars(s: State, k: CStr, l: CStr, v: CStr)
    requires Good(s) && Legal(k) && Legal(l) && FLAGS !in {k, l} && k != l
    ensures var r := SetVar(SetVar(s, k, Some(v)), l, Some(v));
            Good(r) && Vars(r) == Vars(s)[k := v][l := v] && Lookup(r, k).Some? && Lookup(r, l).Some?
  {
    var s1 := SetVar(s, k, Some(v));
    var r := SetVar(s1, l, Some(v));
    SetVarVars(s, k, Some(v));
    SetVarVars(s1, l, Some(v));
    LookupVars(r, k);
    LookupVars(r, l);
  }

  lemma {:induction false} PrepareStateVars(s: State, version: CStr)
    requires Good(s)
    ensures Good(PrepareState(s, version)) && Vars(PrepareState(s, version)) == Prepare(Vars(s), version)
    ensures !NeedExport(s, version) ==> PrepareState(s, version) == s
  {
    NamesDiffer();
    WithVolumesVars(s);
    var s1 := WithVolumes(s);
    LookupVars(s1, VERSION);
    if Lookup(s1, VERSION) == Some(version) {
      AlreadySet(Vars(s1), VERSION, version);
    } else {
      VarAndFlag(s1, VERSION, version, SR);
    }
  }

  lemma {:induction false} AlreadySet(m: map<CStr, CStr>, k: CStr, v: CStr)
    requires k in m && m[k] == v
    ensures m[k := v] == m
  {}

  lemma {:induction false} VarAndFlag(s: State, name: CStr, value: CStr, attr: CStr)
    requires Good(s) && Legal(name) && name != FLAGS
    ensures var r := SetFlag(SetVar(s, name, Some(value)), name, Some(attr));
            Good(r) && Vars(r) == Vars(s)[name := value]
  {
    SetVarVars(s, name, Some(value));
    SetFlagDerived(SetVar(s, name, Some(value)), name, Some(attr));
  }

  lemma {:induction false} SelectStateVars(s: State)
    requires Good(s) && HasVolumes(Vars(s))
    ensures Good(SelectState(s)) && Vars(SelectState(s)) == Select(Vars(s))
    ensures Differs(s) <==> Vars(s)[BOOTVOL] != Vars(s)[SAFE]
  {
    NamesDiffer();
    LookupVars(s, BOOTVOL);
    LookupVars(s, SAFE);
    LookupVars(s, TRIED);
    if Differs(s) {
      if Lookup(s, TRIED).Some? {
        SetVarVars(s, BOOTVOL, Lookup(s, SAFE));
        SetVarVars(SetVar(s, BOOTVOL, Lookup(s, SAFE)), TRIED, None);
      } else {
        SetVarVars(s, TRIED, Some(TRUE));
      }
    }
  }

  datatype Config = Config(size: nat, crc: Checksum, version: CStr)

  /** The environment a context gets from an area. */
  function Read(c: Config, img: Image): State { Import(EMPTY, img, c.crc).state }

  function Prepared(c: Config, st: Storage): State { PrepareState(Read(c, st.sbl), c.version) }

  /** The volume a boot starts. */
  function Volume(c: Config, st: Storage): Option<CStr> { Lookup(SelectState(Prepared(c, st)), BOOTVOL) }

  /** The U-Boot areas: an attempt moves the environment to the saved area, a
      fallback moves the saved copy back. */
  ghost predicate AreasAfter(c: Config, p: State, st: Storage, st': Storage) {
    if Differs(p) && Lookup(p, KEEP).None? then AreasMoved(c, Lookup(p, TRIED).Some?, st, st')
    else st'.uboot == st.uboot && st'.saved == st.saved
  }

  ghost predicate AreasMoved(c: Config, fallback: bool, st: Storage, st': Storage) {
    if fallback then st'.saved == st.saved && Exported(Read(c, st.saved), c.size, c.crc, st'.uboot)
    else Exported(Read(c, st.uboot), c.size, c.crc, st'.saved) && st'.uboot == Erased(c.size)
  }

  /** One uninterrupted boot from st to st'. */
  ghost predicate Boots(c: Config, st: Storage, st': Storage) {
    var p := Prepared(c, st);
    && (if Differs(p) then Exported(SelectState(p), c.size, c.crc, st'.sbl)
        else if NeedExport(Read(c, st.sbl), c.version) then Exported(p, c.size, c.crc, st'.sbl)
        else st'.sbl == st.sbl)
    && AreasAfter(c, p, st, st')
  }

  /** Variables other than the derived one always survive export and import. */
  lemma {:induction false} VarsRoundTrip(c: Config, s: State, img: Image)
    requires Good(s) && Exported(s, c.size, c.crc, img)
    ensures Vars(Read(c, img)) == Vars(s)
  {
    ImportVars(s, c.size, c.crc, img);
    MapOfSort(s.ekv);
    LegalAfterSort(s.ekv);
    ImportFlagsGood(State(Sort(s.ekv), []));
  }

  lemma {:induction false} ReadGood(c: Config, img: Image)
    ensures Good(Read(c, img))
  {
    ImportSettled(img, c.crc);
  }

  /** The SBL variables make one step of the protocol. */
  lemma {:induction false} BootStep(c: Config, st: Storage, st': Storage)
    requires Boots(c, st, st')
    ensures Vars(Read(c, st'.sbl)) == BootVars(Vars(Read(c, st.sbl)), c.version)
    ensures Volume(c, st) == Some(BootVars(Vars(Read(c, st.sbl)), c.version)[BOOTVOL])
  {
    var s, p := Read(c, st.sbl), Prepared(c, st);
    ReadGood(c, st.sbl);
    PrepareStateVars(s, c.version);
    SelectStateVars(p);
    NamesDiffer();
    LookupVars(SelectState(p), BOOTVOL);
    if Differs(p) {
      VarsRoundTrip(c, SelectState(p), st'.sbl);
    } else if NeedExport(s, c.version) {
      VarsRoundTrip(c, p, st'.sbl);
    }
  }

  /** The same through storage: the volume a boot starts, by the stored SBL
      variables. */
  lemma {:induction false} VolumeLaw(c: Config, st: Storage)
    ensures var v, b := Vars(Read(c, st.sbl)), Volume(c, st);
            && (!HasVolumes(v) ==> b == Some([97]))
            && (HasVolumes(v) && v[BOOTVOL] == v[SAFE] ==> b == Some(v[SAFE]))
            && (HasVolumes(v) && v[BOOTVOL] != v[SAFE] && TRIED !in v ==> b == Some(v[BOOTVOL]))
            && (HasVolumes(v) && v[BOOTVOL] != v[SAFE] && TRIED in v ==> b == Some(v[SAFE]))
  {
    VolumeIs(c, st);
    BootLaw(Vars(Read(c, st.sbl)), c.version);
  }

  lemma {:induction false} VolumeIs(c: Config, st: Storage)
    ensures Volume(c, st) == Some(BootVars(Vars(Read(c, st.sbl)), c.version)[BOOTVOL])
  {
    var s, p := Read(c, st.sbl), Prepared(c, st);
    ReadGood(c, st.sbl);
    PrepareStateVars(s, c.version);
    SelectStateVars(p);
    NamesDiffer();
    LookupVars(SelectState(p), BOOTVOL);
  }

  lemma {:induction false} PreparedGood(c: Config, st: Storage)
    ensures Good(Prepared(c, st)) && VolumesSet(Prepared(c, st))
  {
    var p := Prepared(c, st);
    ReadGood(c, st.sbl);
    PrepareStateVars(Read(c, st.sbl), c.version);
    NamesDiffer();
    LookupVars(p, BOOTVOL);
    LookupVars(p, SAFE);
  }

  // ---- histories ----

  datatype Record = Record(before: Storage, after: Storage)

  /** Boots with firmware in between that leaves the SBL environment and the
      saved copy alone. */
  ghost predicate History(c: Config, h: seq<Record>) {
    && (forall i | 0 <= i < |h| :: Boots(c, h[i].before, h[i].after))
    && forall i | 0 < i < |h| :: h[i].before.sbl == h[i - 1].after.sbl && h[i].before.saved == h[i - 1].after.saved
  }

  lemma {:induction false} HistoryVars(c: Config, h: seq<Record>, i: nat)
    requires History(c, h) && i < |h|
    ensures Vars(Read(c, h[i].before.sbl)) == VarsAfter(Vars(Read(c, h[0].before.sbl)), c.version, i)
  {
    if i > 0 {
      HistoryVars(c, h, i - 1);
      BootStep(c, h[i - 1].before, h[i - 1].after);
    }
  }

  lemma {:induction false} HistoryVolume(c: Config, h: seq<Record>, i: nat)
    requires History(c, h) && i < |h|
    ensures Volume(c, h[i].before) == Some(Booted(Vars(Read(c, h[0].before.sbl)), c.version, i))
  {
    HistoryVars(c, h, i);
    BootStep(c, h[i].before, h[i].after);
  }

  /** Over every history a volume other than the safe one is booted at most
      once, and the next boot takes the safe one. */
  lemma {:induction false} TriedOnce(c: Config, h: seq<Record>, i: nat, j: nat)
    requires History(c, h) && i < j < |h|
    requires Volume(c, h[i].before) != Lookup(Prepared(c, h[i].before), SAFE)
    ensures Volume(c, h[j].before) == Lookup(Prepared(c, h[i].before), SAFE)
    ensures j == i + 1 ==> TRIED !in Vars(Read(c, h[j].after.sbl))
  {
    var v := Vars(Read(c, h[0].before.sbl));
    HistoryVars(c, h, i);
    HistoryVars(c, h, j);
    HistoryVolume(c, h, i);
    HistoryVolume(c, h, j);
    SafeOf(c, h[i].before);
    SafeStays(v, c.version, i);
    AttemptedOnce(v, c.version, i, j);
    BootStep(c, h[j].before, h[j].after);
  }

  lemma {:induction false} SafeOf(c: Config, st: Storage)
    ensures Lookup(Prepared(c, st), SAFE) == Some(Prepare(Vars(Read(c, st.sbl)), c.version)[SAFE])
  {
    ReadGood(c, st.sbl);
    PrepareStateVars(Read(c, st.sbl), c.version);
    NamesDiffer();
    LookupVars(Prepared(c, st), SAFE);
  }

  // ---- the U-Boot environment ----

  /** Attempt, firmware, fallback: without keep_uboot_env the U-Boot variables
      are those from before the attempt. The derived variable and the flags come
      back too exactly when the environment was settled: the one exception is a
      list in flash that broke off behind a raw flag list. */
  lemma {:induction false} FallbackRestores(c: Config, h: seq<Record>, i: nat)
    requires History(c, h) && i + 1 < |h|
    requires Volume(c, h[i].before) != Lookup(Prepared(c, h[i].before), SAFE)
    requires KEEP !in Vars(Read(c, h[i].before.sbl))
    ensures var u, r := Read(c, h[i].before.uboot), Read(c, h[i + 1].after.uboot);
            Vars(r) == Vars(u) && (SameMaps(r, u) <==> Settled(u))
  {
    var a, b := h[i], h[i + 1];
    var v := Vars(Read(c, a.before.sbl));
    var p, q := Prepared(c, a.before), Prepared(c, b.before);
    Attempt(c, a.before, a.after);
    BootStep(c, a.before, a.after);
    SafeOf(c, a.before);
    AttemptThenFallback(v, c.version);
    Fallback(c, b.before, b.after, v);
    var u := Read(c, a.before.uboot);
    ReadGood(c, a.before.uboot);
    ReadGood(c, a.after.saved);
    VarsRoundTrip(c, u, a.after.saved);
    VarsRoundTrip(c, Read(c, a.after.saved), b.after.uboot);
    if Settled(u) {
      SettledTwice(c, u, a.after.saved, b.after.uboot);
    } else {
      UnsettledTwice(c, a.before.uboot, a.after.saved, b.after.uboot);
    }
  }

  /** An attempt moves the U-Boot variables away and leaves an erased area. */
  lemma {:induction false} AttemptSaves(c: Config, st: Storage, st': Storage)
    requires Boots(c, st, st') && Volume(c, st) != Lookup(Prepared(c, st), SAFE) && KEEP !in Vars(Read(c, st.sbl))
    ensures Vars(Read(c, st'.saved)) == Vars(Read(c, st.uboot))
    ensures st'.uboot.crc == 0xFFFF_FFFF && |st'.uboot.data| == c.size
    ensures forall i | 0 <= i < c.size :: st'.uboot.data[i] == 255
  {
    Attempt(c, st, st');
    ReadGood(c, st.uboot);
    VarsRoundTrip(c, Read(c, st.uboot), st'.saved);
  }

  /** With keep_uboot_env, and when the volumes agree, both U-Boot areas stay. */
  lemma {:induction false} KeptAreas(c: Config, st: Storage, st': Storage)
    requires Boots(c, st, st')
    requires var v := Vars(Read(c, st.sbl)); KEEP in v || !HasVolumes(v) || v[BOOTVOL] == v[SAFE]
    ensures st'.uboot == st.uboot && st'.saved == st.saved
  {
    var s, p := Read(c, st.sbl), Prepared(c, st);
    NamesDiffer();
    ReadGood(c, st.sbl);
    PrepareStateVars(s, c.version);
    LookupVars(p, KEEP);
    LookupVars(p, BOOTVOL);
    LookupVars(p, SAFE);
  }

  lemma {:induction false} Attempt(c: Config, st: Storage, st': Storage)
    requires Boots(c, st, st') && Volume(c, st) != Lookup(Prepared(c, st), SAFE) && KEEP !in Vars(Read(c, st.sbl))
    ensures Exported(Read(c, st.uboot), c.size, c.crc, st'.saved) && st'.uboot == Erased(c.size)
  {
    var s, p := Read(c, st.sbl), Prepared(c, st);
    NamesDiffer();
    ReadGood(c, st.sbl);
    PrepareStateVars(s, c.version);
    SelectStateVars(p);
    LookupVars(p, KEEP);
    LookupVars(p, TRIED);
    LookupVars(p, SAFE);
    LookupVars(SelectState(p), BOOTVOL);
  }

  /** A fallback moves the saved environment back. */
  lemma {:induction false} Fallback(c: Config, st: Storage, st': Storage, v: map<CStr, CStr>)
    requires Boots(c, st, st') && Vars(Read(c, st.sbl)) == BootVars(v, c.version) && KEEP !in v
    requires BootVars(v, c.version)[BOOTVOL] != SafeVolume(v, c.version)
    ensures Exported(Read(c, st.saved), c.size, c.crc, st'.uboot)
  {
    var s, p := Read(c, st.sbl), Prepared(c, st);
    NamesDiffer();
    FallbackVars(v, c.version);
    ReadGood(c, st.sbl);
    PrepareStateVars(s, c.version);
    SelectStateVars(p);
    LookupVars(p, KEEP);
    LookupVars(p, TRIED);
  }

  lemma {:induction false} SettledTwice(c: Config, u: State, saved: Image, uboot: Image)
    requires Settled(u) && Exported(u, c.size, c.crc, saved) && Exported(Read(c, saved), c.size, c.crc, uboot)
    ensures SameMaps(Read(c, uboot), u)
  {
    SettledRoundTrip(u, c.size, c.crc, saved);
    ReadGood(c, saved);
    SettledByMaps(u, Read(c, saved));
    SettledRoundTrip(Read(c, saved), c.size, c.crc, uboot);
  }

  lemma {:induction false} UnsettledTwice(c: Config, img: Image, saved: Image, uboot: Image)
    requires !Settled(Read(c, img))
    requires Exported(Read(c, img), c.size, c.crc, saved) && Exported(Read(c, saved), c.size, c.crc, uboot)
    ensures !SameMaps(Read(c, uboot), Read(c, img))
  {
    var u, s, r := Read(c, img), Read(c, saved), Read(c, uboot);
    ReadGood(c, img);
    Unsettled(img, c.crc);
    UnsettledChanges(u, c.size, c.crc, saved);
    SettledRoundTrip(s, c.size, c.crc, uboot);
    ReadGood(c, uboot);
    SameLength(r.fkv, s.fkv);
    assert KeysOf(u.fkv) == {};
    ItemInMap(r.fkv, r.fkv[0]);
  }

  lemma {:induction false} SettledByMaps(s: State, t: State)
    requires Settled(s) && Good(t) && SameMaps(s, t)
    ensures Settled(t)
  {
    NoCommasByMap(s.fkv, t.fkv);
    SameLength(s.fkv, t.fkv);
    if Derived(s) && |s.fkv| > 0 { SortOfMap(s.fkv, t.fkv); }
  }

  lemma {:induction false} SameLength(s: seq<Kv>, t: seq<Kv>)
    requires Distinct(s) && Distinct(t) && MapOf(s) == MapOf(t)
    ensures |s| == |t|
  {
    SortOfMap(s, t);
    MapOfSort(s);
    MapOfSort(t);
  }

  // ---- the code ----

  /** Every environment this boot writes fits its area. */
  ghost predicate Fit(c: Config, st: Storage) {
    var p := Prepared(c, st);
    Fits(p, c.size) && Fits(SelectState(p), c.size) && FitsUboot(c, st)
  }

  ghost predicate FitsUboot(c: Config, st: Storage) {
    Fits(Read(c, st.uboot), c.size) && Fits(Read(c, st.saved), c.size)
  }

  /** What select_slot does to the areas. */
  ghost predicate Selected(c: Config, p: State, st: Storage, st': Storage) {
    && AreasAfter(c, p, st, st')
    && if Differs(p) then Exported(SelectState(p), c.size, c.crc, st'.sbl) else st'.sbl == st.sbl
  }

  lemma {:induction false} SelectedThrough(c: Config, p: State, st: Storage, moved: Storage, st': Storage)
    requires Differs(p) && st' == moved.(sbl := st'.sbl) && Exported(SelectState(p), c.size, c.crc, st'.sbl)
    requires if Lookup(p, KEEP).None? then AreasMoved(c, Lookup(p, TRIED).Some?, st, moved) else moved == st
    ensures Selected(c, p, st, st')
  {}

  /** What prepare_env leaves in flash. */
  ghost predicate PreparedArea(c: Config, st: Storage, sbl: Image) {
    if NeedExport(Read(c, st.sbl), c.version) then Exported(Prepared(c, st), c.size, c.crc, sbl) else sbl == st.sbl
  }

  lemma {:induction false} BootsThrough(c: Config, st: Storage, st1: Storage, st': Storage)
    requires PreparedArea(c, st, st1.sbl) && st1 == st.(sbl := st1.sbl) && Selected(c, Prepared(c, st), st1, st')
    ensures Boots(c, st, st')
  {}

  class Board {
    const c: Config
    const flash: Flash

    ghost predicate Valid()
      reads flash.chip
    {
      flash.Valid() && flash.l.size == c.size
    }

    ghost function Stored(): Storage
      reads flash.chip
      requires Valid()
    {
      flash.Contents()
    }

    constructor (c: Config, flash: Flash)
      requires flash.Valid() && flash.l.size == c.size
      ensures this.c == c && this.flash == flash && Valid()
    {
      this.c, this.flash := c, flash;
    }

    /** prepare_env; `memory` is what malloc returns, `junk` an unset local. */
    method PrepareEnv(memory: seq<Byte>, junk: int) returns (ctx: Env.Context)
      requires Valid() && |memory| == c.size && Fits(Prepared(c, Stored()), c.size)
      modifies flash.chip
      ensures Valid() && fresh(ctx) && ctx.Valid() && Untouched(flash.l, old(flash.chip.cells), flash.chip.cells)
      ensures PreparedArea(c, old(Stored()), Stored().sbl) && Stored() == old(Stored()).(sbl := Stored().sbl)
      ensures SameMaps(ctx.Value(), Prepared(c, old(Stored())))
    {
      ghost var st := Stored();
      var needExport;
      ctx, needExport := Load(junk);
      if needExport {
        SaveSbl(ctx, memory, Prepared(c, st));
      }
    }

    /** env_import of the SBL environment, and the defaults. */
    method Load(junk: int) returns (ctx: Env.Context, needExport: bool)
      requires Valid()
      ensures fresh(ctx) && ctx.Valid() && ctx.Value() == Prepared(c, Stored())
      ensures needExport == NeedExport(Read(c, Stored().sbl), c.version)
    {
      ctx := new Env.Context();
      var img := flash.Read(Sbl);
      var status := ctx.Import(img, c.crc, junk);
      needExport := SetDefaults(ctx, c.version, junk);
    }

    /** env_import from one area and env_move to another. */
    method MoveArea(from: Area, to: Area, memory: seq<Byte>, junk: int)
      requires Valid() && |memory| == c.size && Fits(Read(c, flash.At(from)), c.size)
      modifies flash.chip
      ensures Valid() && Untouched(flash.l, old(flash.chip.cells), flash.chip.cells)
      ensures Exported(Read(c, old(flash.At(from))), c.size, c.crc, flash.At(to))
      ensures Stored() == With(old(Stored()), to, flash.At(to))
    {
      var ctx := new Env.Context();
      var img := flash.Read(from);
      var status := ctx.Import(img, c.crc, junk);
      var out, fault := ctx.Export(memory, c.crc);
      flash.Write(to, out);
    }

    /** select_slot. The context holds the prepared variables p, in any order. */
    method SelectSlot(ctx: Env.Context, memory: seq<Byte>, junk: int, ghost p: State) returns (useSlotB: bool)
      requires Valid() && |memory| == c.size && ctx.Valid() && Good(p) && VolumesSet(p) && SameMaps(ctx.Value(), p)
      requires Fits(SelectState(p), c.size) && FitsUboot(c, Stored())
      modifies flash.chip, ctx
      ensures Valid() && Untouched(flash.l, old(flash.chip.cells), flash.chip.cells)
      ensures useSlotB == (Lookup(SelectState(p), BOOTVOL) == Some(B))
      ensures Selected(c, p, old(Stored()), Stored())
    {
      SelectByMaps(ctx.Value(), p);
      var bootvol := ctx.Get(BOOTVOL);
      var safe := ctx.Get(SAFE);
      if bootvol != safe {
        ChangeSlot(ctx, memory, junk, p);
      }
      bootvol := ctx.Get(BOOTVOL);
      useSlotB := bootvol == Some(B);
    }

    /** select_slot when the two volumes differ. */
    method ChangeSlot(ctx: Env.Context, memory: seq<Byte>, junk: int, ghost p: State)
      requires Valid() && |memory| == c.size && ctx.Valid() && Good(p) && SameMaps(ctx.Value(), p) && Differs(p)
      requires Fits(SelectState(p), c.size) && FitsUboot(c, Stored())
      modifies flash.chip, ctx
      ensures Valid() && Untouched(flash.l, old(flash.chip.cells), flash.chip.cells)
      ensures Selected(c, p, old(Stored()), Stored())
      ensures ctx.Valid() && MapOf(ctx.ekv) == MapOf(SelectState(p).ekv)
    {
      ghost var st, cells := Stored(), flash.chip.cells;
      var keep, tried := Choose(ctx, junk, p);
      KeepOrMove(keep, tried, memory, junk);
      ghost var moved, cells' := Stored(), flash.chip.cells;
      SaveSbl(ctx, memory, SelectState(p));
      SelectedThrough(c, p, st, moved, Stored());
      UntouchedTwice(flash.l, cells, cells', flash.chip.cells);
    }

    /** The U-Boot areas, unless they are to be kept. */
    method KeepOrMove(keep: bool, fallback: bool, memory: seq<Byte>, junk: int)
      requires Valid() && |memory| == c.size && FitsUboot(c, Stored())
      modifies flash.chip
      ensures Valid() && Untouched(flash.l, old(flash.chip.cells), flash.chip.cells)
      ensures if keep then Stored() == old(Stored())
              else AreasMoved(c, fallback, old(Stored()), Stored()) && Stored().sbl == old(Stored()).sbl
    {
      if !keep {
        MoveAreas(fallback, memory, junk);
      }
    }

    /** env_export of the SBL environment, whatever the order of its list. */
    method SaveSbl(ctx: Env.Context, memory: seq<Byte>, ghost q: State)
      requires Valid() && |memory| == c.size
      requires ctx.Valid() && Good(q) && MapOf(ctx.ekv) == MapOf(q.ekv) && Fits(q, c.size)
      modifies flash.chip, ctx`ekv
      ensures Valid() && Untouched(flash.l, old(flash.chip.cells), flash.chip.cells)
      ensures Exported(q, c.size, c.crc, Stored().sbl) && Stored() == old(Stored()).(sbl := Stored().sbl)
      ensures ctx.Valid() && MapOf(ctx.ekv) == MapOf(q.ekv)
    {
      SortOfMap(ctx.ekv, q.ekv);
      MapOfSort(ctx.ekv);
      var img, fault := ctx.Export(memory, c.crc);
      flash.Write(Sbl, img);
    }

    /** Fallback restores the saved U-Boot environment; an attempt saves it and
        erases the original. */
    method MoveAreas(fallback: bool, memory: seq<Byte>, junk: int)
      requires Valid() && |memory| == c.size && FitsUboot(c, Stored())
      modifies flash.chip
      ensures Valid() && Untouched(flash.l, old(flash.chip.cells), flash.chip.cells)
      ensures AreasMoved(c, fallback, old(Stored()), Stored()) && Stored().sbl == old(Stored()).sbl
    {
      if fallback {
        MoveArea(Saved, Uboot, memory, junk);
      } else {
        MoveArea(Uboot, Saved, memory, junk);
        flash.Clear(Uboot);
      }
    }

    /** prepare_env and select_slot: one boot of the protocol. The decoded areas
        make the step, and no other cell of the chip changes. */
    method Boot(memory: seq<Byte>, junk: int) returns (useSlotB: bool)
      requires Valid() && |memory| == c.size && Fit(c, Stored())
      modifies flash.chip
      ensures Valid() && Untouched(flash.l, old(flash.chip.cells), flash.chip.cells)
      ensures Boots(c, old(Stored()), Stored()) && useSlotB == (Volume(c, old(Stored())) == Some(B))
      ensures var v := Vars(Read(c, old(Stored()).sbl));
              && (!HasVolumes(v) ==> !useSlotB)
              && (HasVolumes(v) && (v[BOOTVOL] == v[SAFE] || TRIED in v) ==> useSlotB == (v[SAFE] == [98]))
              && (HasVolumes(v) && v[BOOTVOL] != v[SAFE] && TRIED !in v ==> useSlotB == (v[BOOTVOL] == [98]))
    {
      ghost var st, cells := Stored(), flash.chip.cells;
      PreparedGood(c, st);
      VolumeLaw(c, st);
      var ctx := PrepareEnv(memory, junk);
      ghost var st1, cells1 := Stored(), flash.chip.cells;
      useSlotB := SelectSlot(ctx, memory, junk, Prepared(c, st));
      BootsThrough(c, st, st1, Stored());
      UntouchedTwice(flash.l, cells, cells1, flash.chip.cells);
    }
  }

  /** The flags of select_slot, and its changes to the SBL environment. */
  method Choose(ctx: Env.Context, junk: int, ghost p: State) returns (keep: bool, tried: bool)
    requires ctx.Valid() && Good(p) && SameMaps(ctx.Value(), p) && Differs(p)
    modifies ctx
    ensures keep == Lookup(p, KEEP).Some? && tried == Lookup(p, TRIED).Some?
    ensures ctx.Valid() && Good(SelectState(p)) && MapOf(ctx.ekv) == MapOf(SelectState(p).ekv)
  {
    SelectByMaps(ctx.Value(), p);
    var k := ctx.Get(KEEP);
    var t := ctx.Get(TRIED);
    SelectVolume(ctx, junk);
    keep, tried := k.Some?, t.Some?;
  }

  /** The body of prepare_env: missing volumes, and the version. */
  method SetDefaults(ctx: Env.Context, version: CStr, junk: int) returns (needExport: bool)
    requires ctx.Valid()
    modifies ctx
    ensures ctx.Valid() && ctx.Value() == PrepareState(old(ctx.Value()), version)
    ensures needExport == NeedExport(old(ctx.Value()), version)
  {
    var filled := SetVolumes(ctx, junk);
    var bumped := SetVersion(ctx, version, junk);
    needExport := filled || bumped;
  }

  method SetVolumes(ctx: Env.Context, junk: int) returns (changed: bool)
    requires ctx.Valid()
    modifies ctx
    ensures ctx.Valid() && ctx.Value() == WithVolumes(old(ctx.Value())) && changed == !VolumesSet(old(ctx.Value()))
  {
    NamesDiffer();
    var bootvol := ctx.Get(BOOTVOL);
    var safe := ctx.Get(SAFE);
    changed := bootvol.None? || safe.None?;
    if changed {
      var r := ctx.Set(BOOTVOL, Some(A), junk);
      r := ctx.Set(SAFE, Some(A), junk);
    }
  }

  method SetVersion(ctx: Env.Context, version: CStr, junk: int) returns (changed: bool)
    requires ctx.Valid()
    modifies ctx
    ensures ctx.Valid() && changed == (Lookup(old(ctx.Value()), VERSION) != Some(version))
    ensures ctx.Value() == if !changed then old(ctx.Value())
                           else SetFlag(SetVar(old(ctx.Value()), VERSION, Some(version)), VERSION, Some(SR))
  {
    NamesDiffer();
    var v := ctx.Get(VERSION);
    changed := v != Some(version);
    if changed {
      var r := ctx.Set(VERSION, Some(version), junk);
      r := ctx.SetFlag(VERSION, Some(SR), junk, junk);
    }
  }

  /** The SBL variables in select_slot. */
  method SelectVolume(ctx: Env.Context, junk: int)
    requires ctx.Valid() && Differs(ctx.Value())
    modifies ctx
    ensures ctx.Valid() && ctx.Value() == SelectState(old(ctx.Value()))
  {
    NamesDiffer();
    var safe := ctx.Get(SAFE);
    var tried := ctx.Get(TRIED);
    if tried.Some? {
      var r := ctx.Set(BOOTVOL, safe, junk);
      r := ctx.Set(TRIED, None, junk);
    } else {
      var r := ctx.Set(TRIED, Some(TRUE), junk);
    }
  }

  /** The order of the lists does not matter to select_slot. */
  lemma {:induction false} SelectByMaps(s: State, p: State)
    requires Good(s) && Good(p) && SameMaps(s, p)
    ensures Good(SelectState(s)) && Good(SelectState(p))
    ensures MapOf(SelectState(s).ekv) == MapOf(SelectState(p).ekv) && (Differs(s) <==> Differs(p))
  {
    NamesDiffer();
    if Differs(s) {
      if Lookup(s, TRIED).Some? {
        var v := Lookup(s, SAFE);
        SetVarGood(s, BOOTVOL, v);
        SetVarGood(p, BOOTVOL, v);
        SetVarGood(SetVar(s, BOOTVOL, v), TRIED, None);
        SetVarGood(SetVar(p, BOOTVOL, v), TRIED, None);
      } else {
        SetVarGood(s, TRIED, Some(TRUE));
        SetVarGood(p, TRIED, Some(TRUE));
      }
    }
  }
}
