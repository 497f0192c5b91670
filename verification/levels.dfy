/** The severity table: custom levels registered into the logging backend's
    level-name dictionaries and module attributes, and the one-shot
    initialisation that registers the library's own levels. */
module Levels {
  import opened Text

  /** The library's custom levels. */
  const AUDIT := 1
  const TRACE := 5
  const OUT := 25
  const NOTICE := 27

  /** The backend's standard levels the custom ones are placed among. */
  const DEBUG := 10
  const INFO := 20
  const WARNING := 30
  const ERROR := 40

  /** A module attribute set by registration: the level constant (`logging.OUT`)
      or the module-level convenience function (`logging.out`) that logs at a
      fixed level. */
  datatype Attr = LevelConst(no: int) | LevelMethod(no: int)

  /** The backend's registry: the level-number to name and name to level-number
      dictionaries written by `addLevelName`, and the module attributes. */
  datatype Registry = Registry(
    levelToName: map<int, string>,
    nameToLevel: map<string, int>,
    attrs: map<string, Attr>)

  /** One level written into the table under an upper-case name `upper`: the
      number is given that name in both directions, the name becomes a constant
      attribute and `methodName` a function logging at the number (set second,
      so it wins if the two spellings coincide). */
  function Put(reg: Registry, upper: string, methodName: string, levelNo: int): Registry {
    Registry(
      reg.levelToName[levelNo := upper],
      reg.nameToLevel[upper := levelNo],
      reg.attrs[upper := LevelConst(levelNo)][methodName := LevelMethod(levelNo)])
  }

  /** `_add_logging_level(level_name, level_no)`: the name is upper-cased and
      written into the table, its lower-cased form naming the function. */
  function AddLoggingLevel(reg: Registry, levelName: string, levelNo: int): Registry {
    var upper := ToUpper(levelName);
    Put(reg, upper, ToLower(upper), levelNo)
  }

  /** What one write does to the table, entry by entry. */
  lemma PutEffect(reg: Registry, upper: string, methodName: string, no: int)
    ensures var r := Put(reg, upper, methodName, no);
      && r.levelToName.Keys == reg.levelToName.Keys + {no}
      && r.levelToName[no] == upper
      && (forall n :: n in reg.levelToName && n != no ==> r.levelToName[n] == reg.levelToName[n])
      && r.nameToLevel.Keys == reg.nameToLevel.Keys + {upper}
      && r.nameToLevel[upper] == no
      && (forall m :: m in reg.nameToLevel && m != upper ==> r.nameToLevel[m] == reg.nameToLevel[m])
      && r.attrs.Keys == reg.attrs.Keys + {upper, methodName}
      && methodName in r.attrs && r.attrs[methodName] == LevelMethod(no)
      && (upper != methodName ==> upper in r.attrs && r.attrs[upper] == LevelConst(no))
      && (forall a :: a in reg.attrs && a != upper && a != methodName ==> a in r.attrs && r.attrs[a] == reg.attrs[a])
  {
  }

  /** What one registration does to the table, entry by entry: the number is
      named by the upper-cased name and back, the lower-cased name logs at the
      number, the upper-cased name holds it as a constant unless both spellings
      coincide, and every other entry is left as it was. */
  lemma AddLoggingLevelEffect(reg: Registry, levelName: string, levelNo: int)
    ensures var r := AddLoggingLevel(reg, levelName, levelNo);
      var upper := ToUpper(levelName);
      && r.levelToName.Keys == reg.levelToName.Keys + {levelNo}
      && r.levelToName[levelNo] == upper && IsUpper(r.levelToName[levelNo])
      && (forall n :: n in reg.levelToName && n != levelNo ==> r.levelToName[n] == reg.levelToName[n])
      && r.nameToLevel.Keys == reg.nameToLevel.Keys + {upper}
      && r.nameToLevel[upper] == levelNo
      && (forall m :: m in reg.nameToLevel && m != upper ==> r.nameToLevel[m] == reg.nameToLevel[m])
      && r.attrs.Keys == reg.attrs.Keys + {upper, ToLower(levelName)}
      && ToLower(levelName) in r.attrs && r.attrs[ToLower(levelName)] == LevelMethod(levelNo)
      && (upper != ToLower(levelName) ==> upper in r.attrs && r.attrs[upper] == LevelConst(levelNo))
      && (forall a :: a in reg.attrs && a != upper && a != ToLower(levelName) ==> a in r.attrs && r.attrs[a] == reg.attrs[a])
  {
    LowerOfUpper(levelName);
    ToUpperNormalises(levelName);
    PutEffect(reg, ToUpper(levelName), ToLower(ToUpper(levelName)), levelNo);
  }

  /** Registration ignores the case of the name it is given. */
  lemma AddLoggingLevelCaseInsensitive(reg: Registry, levelName: string, levelNo: int)
    ensures AddLoggingLevel(reg, levelName, levelNo) == AddLoggingLevel(reg, ToUpper(levelName), levelNo)
  {
    ToUpperNormalises(levelName);
    LowerOfUpper(levelName);
    LowerOfUpper(ToUpper(levelName));
  }

  /** Writing a level the table already holds changes nothing. */
  lemma PutPresent(reg: Registry, upper: string, methodName: string, no: int)
    requires no in reg.levelToName && reg.levelToName[no] == upper
    requires upper in reg.nameToLevel && reg.nameToLevel[upper] == no
    requires methodName in reg.attrs && reg.attrs[methodName] == LevelMethod(no)
    requires upper != methodName ==> upper in reg.attrs && reg.attrs[upper] == LevelConst(no)
    ensures Put(reg, upper, methodName, no) == reg
  {
    var a := reg.attrs[upper := LevelConst(no)][methodName := LevelMethod(no)];
    assert a == reg.attrs;
  }

  /** Registering the same level a second time changes nothing. */
  lemma AddLoggingLevelIdempotent(reg: Registry, levelName: string, levelNo: int)
    ensures var once := AddLoggingLevel(reg, levelName, levelNo);
      AddLoggingLevel(once, levelName, levelNo) == once
  {
    var upper := ToUpper(levelName);
    PutPresent(AddLoggingLevel(reg, levelName, levelNo), upper, ToLower(upper), levelNo);
  }

  /** The part of the settings manager that `init` touches: the registry, the
      `has_been_init` flag and whether the improved logger class is installed. */
  datatype Setup = Setup(registry: Registry, hasBeenInit: bool, improvedLoggerClass: bool)

  /** The four registrations `init` performs, in order. */
  function RegisterLibraryLevels(reg: Registry): Registry {
    var r1 := AddLoggingLevel(reg, "AUDIT", AUDIT);
    var r2 := AddLoggingLevel(r1, "TRACE", TRACE);
    var r3 := AddLoggingLevel(r2, "OUT", OUT);
    AddLoggingLevel(r3, "NOTICE", NOTICE)
  }

  /** The three registrations the older package performs, in order. */
  function RegisterLegacyLevels(reg: Registry): Registry {
    var r1 := AddLoggingLevel(reg, "AUDIT", AUDIT);
    var r2 := AddLoggingLevel(r1, "TRACE", TRACE);
    AddLoggingLevel(r2, "OUT", OUT)
  }

  /** The spellings the library registers are already upper-case, and their
      convenience functions are named in lower case. */
  lemma LibraryNames()
    ensures ToUpper("AUDIT") == "AUDIT" && ToLower("AUDIT") == "audit"
    ensures ToUpper("TRACE") == "TRACE" && ToLower("TRACE") == "trace"
    ensures ToUpper("OUT") == "OUT" && ToLower("OUT") == "out"
    ensures ToUpper("NOTICE") == "NOTICE" && ToLower("NOTICE") == "notice"
  {
    NameCases("AUDIT", "audit");
    NameCases("TRACE", "trace");
    NameCases("OUT", "out");
    NameCases("NOTICE", "notice");
  }

  /** `upper` is its own upper-case form and `lower` is its lower-case form,
      checked letter by letter. */
  lemma NameCases(upper: string, lower: string)
    requires |upper| == |lower|
    requires forall i :: 0 <= i < |upper| ==> UpperChar(upper[i]) == upper[i] && LowerChar(upper[i]) == lower[i]
    ensures ToUpper(upper) == upper && ToLower(upper) == lower
  {
  }

  /** Three writes of levels, in order. */
  function Put3(reg: Registry, n1: string, m1: string, k1: int,
                n2: string, m2: string, k2: int, n3: string, m3: string, k3: int): Registry {
    Put(Put(Put(reg, n1, m1, k1), n2, m2, k2), n3, m3, k3)
  }

  /** The older package's registrations, as plain table writes. */
  lemma LegacyLevelsArePuts(reg: Registry)
    ensures RegisterLegacyLevels(reg) ==
      Put3(reg, "AUDIT", "audit", AUDIT, "TRACE", "trace", TRACE, "OUT", "out", OUT)
  {
    LibraryNames();
  }

  /** The library's registrations, as plain table writes. */
  lemma LibraryLevelsArePuts(reg: Registry)
    ensures RegisterLibraryLevels(reg) ==
      Put(Put3(reg, "AUDIT", "audit", AUDIT, "TRACE", "trace", TRACE, "OUT", "out", OUT),
          "NOTICE", "notice", NOTICE)
  {
    LibraryNames();
  }

  /** The level table maps `name` to `no` in both directions, holds `no` as the
      constant attribute `name` and logs at `no` through the attribute named by
      the lower-cased `name`. */
  predicate HasLevel(reg: Registry, name: string, methodName: string, no: int) {
    && name in reg.nameToLevel && reg.nameToLevel[name] == no
    && no in reg.levelToName && reg.levelToName[no] == name
    && name in reg.attrs && reg.attrs[name] == LevelConst(no)
    && methodName in reg.attrs && reg.attrs[methodName] == LevelMethod(no)
  }

  /** Writing a level under two different spellings puts it in the table. */
  lemma PutEstablishes(reg: Registry, name: string, methodName: string, no: int)
    requires name != methodName
    ensures HasLevel(Put(reg, name, methodName, no), name, methodName, no)
  {
  }

  /** Writing a level under other spellings and another number keeps a level
      already in the table. */
  lemma PutPreserves(reg: Registry, name: string, methodName: string, no: int,
                     name2: string, methodName2: string, no2: int)
    requires HasLevel(reg, name, methodName, no)
    requires no != no2 && name != name2 && name != methodName2
    requires methodName != name2 && methodName != methodName2
    ensures HasLevel(Put(reg, name2, methodName2, no2), name, methodName, no)
  {
  }

  /** Three writes of levels with pairwise different numbers and spellings
      leave all three in the table. */
  lemma Put3Establishes(reg: Registry, n1: string, m1: string, k1: int,
                        n2: string, m2: string, k2: int, n3: string, m3: string, k3: int)
    requires k1 != k2 && k1 != k3 && k2 != k3
    requires |{n1, m1, n2, m2, n3, m3}| == 6
    ensures var r := Put3(reg, n1, m1, k1, n2, m2, k2, n3, m3, k3);
      HasLevel(r, n1, m1, k1) && HasLevel(r, n2, m2, k2) && HasLevel(r, n3, m3, k3)
  {
    var r1 := Put(reg, n1, m1, k1);
    var r2 := Put(r1, n2, m2, k2);
    PutEstablishes(reg, n1, m1, k1);
    PutEstablishes(r1, n2, m2, k2);
    PutPreserves(r1, n1, m1, k1, n2, m2, k2);
    PutEstablishes(r2, n3, m3, k3);
    PutPreserves(r2, n1, m1, k1, n3, m3, k3);
    PutPreserves(r2, n2, m2, k2, n3, m3, k3);
  }

  /** Every entry of `before` outside the numbers `nos`, the level names
      `uppers` and the attribute names `names` is still in `after`, with the
      same value, and `after` has no entry that is neither in `before` nor
      among those. */
  predicate KeepsOthers(before: Registry, after: Registry, nos: set<int>, uppers: set<string>, names: set<string>) {
    && after.levelToName.Keys <= before.levelToName.Keys + nos
    && after.nameToLevel.Keys <= before.nameToLevel.Keys + uppers
    && after.attrs.Keys <= before.attrs.Keys + names
    && (forall n :: n in before.levelToName && n !in nos ==>
          n in after.levelToName && after.levelToName[n] == before.levelToName[n])
    && (forall m :: m in before.nameToLevel && m !in uppers ==>
          m in after.nameToLevel && after.nameToLevel[m] == before.nameToLevel[m])
    && (forall a :: a in before.attrs && a !in names ==>
          a in after.attrs && after.attrs[a] == before.attrs[a])
  }

  /** A write touches only its number, its level name and its two attribute
      spellings. */
  lemma PutKeepsOthers(reg: Registry, name: string, methodName: string, no: int)
    ensures KeepsOthers(reg, Put(reg, name, methodName, no), {no}, {name}, {name, methodName})
  {
  }

  /** Keeping the other entries composes, and what two steps keep any wider
      exemption keeps too. */
  lemma KeepsOthersTrans(a: Registry, b: Registry, c: Registry,
                         nos1: set<int>, uppers1: set<string>, names1: set<string>,
                         nos2: set<int>, uppers2: set<string>, names2: set<string>,
                         nos: set<int>, uppers: set<string>, names: set<string>)
    requires KeepsOthers(a, b, nos1, uppers1, names1) && KeepsOthers(b, c, nos2, uppers2, names2)
    requires nos1 + nos2 <= nos && uppers1 + uppers2 <= uppers && names1 + names2 <= names
    ensures KeepsOthers(a, c, nos, uppers, names)
  {
  }

  /** Three writes touch only their numbers, level names and spellings. */
  lemma Put3KeepsOthers(reg: Registry, n1: string, m1: string, k1: int,
                        n2: string, m2: string, k2: int, n3: string, m3: string, k3: int)
    ensures KeepsOthers(reg, Put3(reg, n1, m1, k1, n2, m2, k2, n3, m3, k3),
                        {k1, k2, k3}, {n1, n2, n3}, {n1, m1, n2, m2, n3, m3})
  {
    var r1 := Put(reg, n1, m1, k1);
    var r2 := Put(r1, n2, m2, k2);
    PutKeepsOthers(reg, n1, m1, k1);
    PutKeepsOthers(r1, n2, m2, k2);
    PutKeepsOthers(r2, n3, m3, k3);
    KeepsOthersTrans(reg, r1, r2, {k1}, {n1}, {n1, m1}, {k2}, {n2}, {n2, m2},
                     {k1, k2}, {n1, n2}, {n1, m1, n2, m2});
    KeepsOthersTrans(reg, r2, Put(r2, n3, m3, k3), {k1, k2}, {n1, n2}, {n1, m1, n2, m2},
                     {k3}, {n3}, {n3, m3}, {k1, k2, k3}, {n1, n2, n3}, {n1, m1, n2, m2, n3, m3});
  }

  /** Four writes touch only their numbers, level names and spellings. */
  lemma Put4KeepsOthers(reg: Registry, n1: string, m1: string, k1: int, n2: string, m2: string, k2: int,
                        n3: string, m3: string, k3: int, n4: string, m4: string, k4: int)
    ensures KeepsOthers(reg, Put(Put3(reg, n1, m1, k1, n2, m2, k2, n3, m3, k3), n4, m4, k4),
                        {k1, k2, k3, k4}, {n1, n2, n3, n4}, {n1, m1, n2, m2, n3, m3, n4, m4})
  {
    var r3 := Put3(reg, n1, m1, k1, n2, m2, k2, n3, m3, k3);
    Put3KeepsOthers(reg, n1, m1, k1, n2, m2, k2, n3, m3, k3);
    PutKeepsOthers(r3, n4, m4, k4);
    KeepsOthersTrans(reg, r3, Put(r3, n4, m4, k4), {k1, k2, k3}, {n1, n2, n3}, {n1, m1, n2, m2, n3, m3},
                     {k4}, {n4}, {n4, m4},
                     {k1, k2, k3, k4}, {n1, n2, n3, n4}, {n1, m1, n2, m2, n3, m3, n4, m4});
  }

  /** The older package's registrations leave every other entry of the table
      alone and add none besides their own: only the upper-case names become
      level names, while both spellings become attributes. */
  lemma LegacyLevelsKeepOthers(reg: Registry)
    ensures KeepsOthers(reg, RegisterLegacyLevels(reg), {AUDIT, TRACE, OUT}, {"AUDIT", "TRACE", "OUT"},
                        {"AUDIT", "audit", "TRACE", "trace", "OUT", "out"})
  {
    LegacyLevelsArePuts(reg);
    Put3KeepsOthers(reg, "AUDIT", "audit", AUDIT, "TRACE", "trace", TRACE, "OUT", "out", OUT);
  }

  /** The library registrations leave every other entry of the table alone,
      the backend's own levels included, and add none besides their own: only
      the upper-case names become level names, while both spellings become
      attributes. */
  lemma LibraryLevelsKeepOthers(reg: Registry)
    ensures KeepsOthers(reg, RegisterLibraryLevels(reg), {AUDIT, TRACE, OUT, NOTICE},
                        {"AUDIT", "TRACE", "OUT", "NOTICE"},
                        {"AUDIT", "audit", "TRACE", "trace", "OUT", "out", "NOTICE", "notice"})
  {
    LibraryLevelsArePuts(reg);
    Put4KeepsOthers(reg, "AUDIT", "audit", AUDIT, "TRACE", "trace", TRACE,
                    "OUT", "out", OUT, "NOTICE", "notice", NOTICE);
  }

  /** The six spellings of the older package's levels are pairwise different. */
  lemma LegacySpellingsDistinct()
    ensures |{"AUDIT", "audit", "TRACE", "trace", "OUT", "out"}| == 6
  {
    var s := {"AUDIT", "audit", "TRACE", "trace", "OUT", "out"};
    assert "AUDIT"[0] != "audit"[0] && "TRACE"[0] != "trace"[0] && "OUT"[0] != "out"[0];
    assert s == {"AUDIT", "audit", "TRACE", "trace", "OUT"} + {"out"};
  }

  /** The older package's registrations leave each of its levels in the table. */
  lemma LegacyLevelsTable(reg: Registry)
    ensures var r := RegisterLegacyLevels(reg);
      && HasLevel(r, "AUDIT", "audit", AUDIT)
      && HasLevel(r, "TRACE", "trace", TRACE)
      && HasLevel(r, "OUT", "out", OUT)
  {
    LegacyLevelsArePuts(reg);
    LegacySpellingsDistinct();
    Put3Establishes(reg, "AUDIT", "audit", AUDIT, "TRACE", "trace", TRACE, "OUT", "out", OUT);
  }

  /** The four registrations leave each library level in the table. */
  lemma LibraryLevelsTable(reg: Registry)
    ensures var r := RegisterLibraryLevels(reg);
      && HasLevel(r, "AUDIT", "audit", AUDIT)
      && HasLevel(r, "TRACE", "trace", TRACE)
      && HasLevel(r, "OUT", "out", OUT)
      && HasLevel(r, "NOTICE", "notice", NOTICE)
  {
    LibraryLevelsArePuts(reg);
    LegacySpellingsDistinct();
    var r3 := Put3(reg, "AUDIT", "audit", AUDIT, "TRACE", "trace", TRACE, "OUT", "out", OUT);
    Put3Establishes(reg, "AUDIT", "audit", AUDIT, "TRACE", "trace", TRACE, "OUT", "out", OUT);
    assert "NOTICE"[0] != "notice"[0];
    PutEstablishes(r3, "NOTICE", "notice", NOTICE);
    PutPreserves(r3, "AUDIT", "audit", AUDIT, "NOTICE", "notice", NOTICE);
    PutPreserves(r3, "TRACE", "trace", TRACE, "NOTICE", "notice", NOTICE);
    PutPreserves(r3, "OUT", "out", OUT, "NOTICE", "notice", NOTICE);
  }

  /** `_LogSettingManager.init`: the first call registers AUDIT, TRACE, OUT and
      NOTICE, installs the improved logger class and raises the flag; later calls
      do nothing. */
  function Init(s: Setup): (r: Setup)
    ensures s.hasBeenInit ==> r == s
    ensures r.hasBeenInit && (!s.hasBeenInit ==> r.improvedLoggerClass)
    ensures !s.hasBeenInit ==>
      && HasLevel(r.registry, "AUDIT", "audit", AUDIT)
      && HasLevel(r.registry, "TRACE", "trace", TRACE)
      && HasLevel(r.registry, "OUT", "out", OUT)
      && HasLevel(r.registry, "NOTICE", "notice", NOTICE)
    ensures KeepsOthers(s.registry, r.registry, {AUDIT, TRACE, OUT, NOTICE},
                        {"AUDIT", "TRACE", "OUT", "NOTICE"},
                        {"AUDIT", "audit", "TRACE", "trace", "OUT", "out", "NOTICE", "notice"})
  {
    if s.hasBeenInit then s
    else
      LibraryLevelsTable(s.registry);
      LibraryLevelsKeepOthers(s.registry);
      Setup(RegisterLibraryLevels(s.registry), true, true)
  }

  /** `init` is idempotent. */
  lemma InitIdempotent(s: Setup)
    ensures Init(Init(s)) == Init(s)
  {
  }

  /** `init_logging` of the older package: registers AUDIT, TRACE and OUT on every
      call (there is no guard flag) and installs the improved logger class. */
  function LegacyInitLogging(s: Setup): (r: Setup)
    ensures HasLevel(r.registry, "AUDIT", "audit", AUDIT)
    ensures HasLevel(r.registry, "TRACE", "trace", TRACE)
    ensures HasLevel(r.registry, "OUT", "out", OUT)
    ensures r.improvedLoggerClass && r.hasBeenInit == s.hasBeenInit
    ensures KeepsOthers(s.registry, r.registry, {AUDIT, TRACE, OUT}, {"AUDIT", "TRACE", "OUT"},
                        {"AUDIT", "audit", "TRACE", "trace", "OUT", "out"})
  {
    LegacyLevelsTable(s.registry);
    LegacyLevelsKeepOthers(s.registry);
    s.(registry := RegisterLegacyLevels(s.registry), improvedLoggerClass := true)
  }

  /** Without a guard flag, repeating the older package's level registrations
      and logger-class installation still changes nothing. */
  lemma LegacyInitLoggingIdempotent(s: Setup)
    ensures LegacyInitLogging(LegacyInitLogging(s)) == LegacyInitLogging(s)
  {
    var t := LegacyInitLogging(s).registry;
    LegacyLevelsArePuts(t);
    PutPresent(t, "AUDIT", "audit", AUDIT);
    PutPresent(t, "TRACE", "trace", TRACE);
    PutPresent(t, "OUT", "out", OUT);
  }

  /** The custom levels sit where their comments place them: AUDIT and TRACE
      below DEBUG, OUT and NOTICE strictly between INFO and WARNING. */
  lemma CustomLevelOrder()
    ensures AUDIT < TRACE < DEBUG
    ensures INFO < OUT < NOTICE < WARNING
  {
  }
}
