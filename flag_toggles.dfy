/**
 * The report-section toggles: one button per additive flag, each flipping
 * its flag in an object of flags to booleans and handing the flags now on,
 * in the object's order, to the page.
 */
module FlagToggles {
  import opened Seqs
  import opened Constants

  predicate IsAdditive(d: FlagDefinition) { d.group == Additive }

  function DefinitionFlag(d: FlagDefinition): string { d.flag }

  /** The flags offered as toggles: the additive definitions, in their order. */
  function ReportFlags(defs: seq<FlagDefinition>): seq<FlagDefinition> {
    Filter(defs, IsAdditive)
  }

  /** The toggles are the four additive flags, in the order they are defined. */
  lemma ReportFlagsAre()
    ensures |ReportFlags(FLAG_DEFINITIONS)| == 4
    ensures ReportFlags(FLAG_DEFINITIONS)[0].flag == "--sections" && ReportFlags(FLAG_DEFINITIONS)[1].flag == "--gender"
    ensures ReportFlags(FLAG_DEFINITIONS)[2].flag == "--companies" && ReportFlags(FLAG_DEFINITIONS)[3].flag == "--ctc-brackets"
    ensures forall d | d in ReportFlags(FLAG_DEFINITIONS) :: d.group == Additive && !d.defaultEnabled
  {
    FlagDefinitionsShape();
    FirstFourAdditive(FLAG_DEFINITIONS);
  }

  /** Seven definitions of which the first four are additive filter to those four. */
  lemma FirstFourAdditive(ds: seq<FlagDefinition>)
    requires |ds| == 7
    requires forall i | 0 <= i < 4 :: ds[i].group == Additive
    requires forall i | 4 <= i < 7 :: ds[i].group == Advanced
    ensures Filter(ds, IsAdditive) == ds[..4]
  {
    assert ds == ds[..4] + ds[4..];
    FilterAppend(ds[..4], ds[4..], IsAdditive);
    FilterAllKept(ds[..4], IsAdditive);
    FilterNoneKept(ds[4..], IsAdditive);
  }

  /** One entry of the object: a flag and whether it is on. */
  datatype FlagEntry = FlagEntry(flag: string, on: bool)

  function FlagOf(e: FlagEntry): string { e.flag }
  predicate IsOn(e: FlagEntry) { e.on }

  /** `enabled[flag]` read as a condition: a flag that is not a key is off. */
  predicate On(m: seq<FlagEntry>, g: string) {
    if m == [] then false
    else if m[0].flag == g then m[0].on
    else On(m[1..], g)
  }

  /** The keys, in insertion order. */
  function Keys(m: seq<FlagEntry>): seq<string> {
    Map(m, FlagOf)
  }

  /** `Object.fromEntries(defs.map((f) => [f.flag, f.defaultEnabled]))`. */
  function Entries(defs: seq<FlagDefinition>): (m: seq<FlagEntry>)
    ensures |m| == |defs|
    ensures forall i | 0 <= i < |defs| :: m[i] == FlagEntry(defs[i].flag, defs[i].defaultEnabled)
  {
    if defs == [] then [] else [FlagEntry(defs[0].flag, defs[0].defaultEnabled)] + Entries(defs[1..])
  }

  /** The object the toggles start from: every toggle at its default. */
  function InitialMap(defs: seq<FlagDefinition>): seq<FlagEntry> {
    Entries(ReportFlags(defs))
  }

  /**
   * `{ ...prev, [flag]: !prev[flag] }`: the flag flips where it is; a flag not
   * yet a key is added at the end, on. Only that flag changes.
   */
  function Toggled(m: seq<FlagEntry>, f: string): (r: seq<FlagEntry>)
    ensures forall g :: On(r, g) == (if g == f then !On(m, g) else On(m, g))
    ensures f in Keys(m) ==> Keys(r) == Keys(m)
    ensures f !in Keys(m) ==> Keys(r) == Keys(m) + [f]
  {
    if m == [] then [FlagEntry(f, true)]
    else if m[0].flag == f then [FlagEntry(f, !m[0].on)] + m[1..]
    else
      var r := [m[0]] + Toggled(m[1..], f);
      assert r[1..] == Toggled(m[1..], f);
      assert Keys(m) == [m[0].flag] + Keys(m[1..]);
      assert Keys(r) == [m[0].flag] + Keys(Toggled(m[1..], f));
      r
  }

  /** The flags handed to the page: `Object.entries(next).filter(([, v]) => v).map(([k]) => k)`. */
  function Enabled(m: seq<FlagEntry>): seq<string> {
    Map(Filter(m, IsOn), FlagOf)
  }

  /** A flag is handed on exactly when it is on. */
  lemma {:induction false} EnabledExactly(m: seq<FlagEntry>, g: string)
    requires DistinctKeys(m, FlagOf)
    ensures g in Enabled(m) <==> On(m, g)
  {
    if m != [] {
      assert DistinctKeys(m[1..], FlagOf) by {
        forall i, j | 0 <= i < j < |m[1..]| ensures m[1..][i].flag != m[1..][j].flag {
          assert m[1..][i] == m[i + 1] && m[1..][j] == m[j + 1];
        }
      }
      EnabledExactly(m[1..], g);
      assert Enabled(m) == (if m[0].on then [m[0].flag] else []) + Enabled(m[1..]);
      if m[0].flag == g {
        assert g !in Keys(m[1..]) by {
          forall i | 0 <= i < |m[1..]| ensures m[1..][i].flag != g {
            assert m[1..][i] == m[i + 1];
          }
        }
        NotKeyOff(m[1..], g);
      }
    }
  }

  /** A flag that is no key is off and is never handed on. */
  lemma {:induction false} NotKeyOff(m: seq<FlagEntry>, g: string)
    requires g !in Keys(m)
    ensures !On(m, g) && g !in Enabled(m)
  {
    if m != [] {
      assert Keys(m) == [m[0].flag] + Keys(m[1..]);
      NotKeyOff(m[1..], g);
      assert Enabled(m) == (if m[0].on then [m[0].flag] else []) + Enabled(m[1..]);
    }
  }

  /** Toggling keeps the keys distinct, as an object's keys are. */
  lemma ToggledDistinct(m: seq<FlagEntry>, f: string)
    requires DistinctKeys(m, FlagOf)
    ensures DistinctKeys(Toggled(m, f), FlagOf)
  {
    var r := Toggled(m, f);
    assert forall i | 0 <= i < |r| :: r[i].flag == Keys(r)[i];
    assert forall i | 0 <= i < |m| :: m[i].flag == Keys(m)[i];
  }

  /** Toggling a flag twice gives the object back. */
  lemma {:induction false} ToggledTwice(m: seq<FlagEntry>, f: string)
    requires f in Keys(m)
    ensures Toggled(Toggled(m, f), f) == m
  {
    assert Keys(m) == [m[0].flag] + Keys(m[1..]);
    if m[0].flag != f {
      ToggledTwice(m[1..], f);
      var r := Toggled(m, f);
      assert r == [m[0]] + Toggled(m[1..], f);
      assert r[1..] == Toggled(m[1..], f);
    }
  }

  /** At first the keys are the four toggles, in order, and all off, so nothing is handed on. */
  lemma InitialMapAllOff()
    ensures |InitialMap(FLAG_DEFINITIONS)| == 4
    ensures InitialMap(FLAG_DEFINITIONS)[0].flag == "--sections" && InitialMap(FLAG_DEFINITIONS)[1].flag == "--gender"
    ensures InitialMap(FLAG_DEFINITIONS)[2].flag == "--companies" && InitialMap(FLAG_DEFINITIONS)[3].flag == "--ctc-brackets"
    ensures forall e | e in InitialMap(FLAG_DEFINITIONS) :: !e.on
    ensures Enabled(InitialMap(FLAG_DEFINITIONS)) == []
  {
    ReportFlagsAre();
    AllOff(ReportFlags(FLAG_DEFINITIONS));
  }

  /** Definitions with distinct flags start an object with no key twice. */
  lemma InitialMapDistinct(defs: seq<FlagDefinition>)
    requires DistinctKeys(defs, DefinitionFlag)
    ensures DistinctKeys(InitialMap(defs), FlagOf)
  {
    FilterDistinctKeys(defs, IsAdditive, DefinitionFlag);
    var fs := ReportFlags(defs);
    var m := InitialMap(defs);
    assert forall i | 0 <= i < |m| :: m[i].flag == fs[i].flag;
  }

  /** The defined flags are distinct, so the toggles can be built over them. */
  lemma DefinitionFlagsDistinct()
    ensures DistinctKeys(FLAG_DEFINITIONS, DefinitionFlag)
  {
    FlagDefinitionsDistinct();
  }

  /** Definitions none of which is on by default give entries all off. */
  lemma AllOff(fs: seq<FlagDefinition>)
    requires forall d | d in fs :: !d.defaultEnabled
    ensures forall e | e in Entries(fs) :: !e.on
    ensures Enabled(Entries(fs)) == []
  {
    assert forall i | 0 <= i < |fs| :: fs[i] in fs;
    NoneOn(Entries(fs));
  }

  /** Entries that are all off filter to nothing. */
  lemma {:induction false} NoneOn(m: seq<FlagEntry>)
    requires forall i | 0 <= i < |m| :: !m[i].on
    ensures Enabled(m) == []
  {
    if m != [] {
      NoneOn(m[1..]);
    }
  }

  /** The toggles' state: the object of flags. */
  class Toggles {
    var enabled: seq<FlagEntry>

    predicate Valid()
      reads this
    {
      DistinctKeys(enabled, FlagOf)
    }

    /** The toggles over the given definitions, whose flags are the keys of an object and so distinct. */
    constructor(defs: seq<FlagDefinition>)
      requires DistinctKeys(defs, DefinitionFlag)
      ensures enabled == InitialMap(defs)
      ensures Valid()
    {
      InitialMapDistinct(defs);
      enabled := InitialMap(defs);
    }

    /** toggle: flip the flag and hand on the flags now on. */
    method Toggle(flag: string) returns (emitted: seq<string>)
      requires Valid()
      modifies this
      ensures enabled == Toggled(old(enabled), flag)
      ensures emitted == Enabled(enabled)
      ensures Valid()
      ensures forall g :: g in emitted <==> On(enabled, g)
    {
      ToggledDistinct(enabled, flag);
      enabled := Toggled(enabled, flag);
      emitted := Enabled(enabled);
      forall g ensures g in emitted <==> On(enabled, g) {
        EnabledExactly(enabled, g);
      }
    }
  }
}
