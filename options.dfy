/** The option array `generateModel` assembles (SchemaGenerator.php lines
    324-347) and the test that decides whether a `$casts` block is emitted.
    A PHP array is an ordered list of entries; its keys are integers or
    strings. */
module Options {
  import opened Php

  datatype Key = Index(n: nat) | Name(name: string)

  /** The scalar values an option array can hold after JSON decoding. */
  datatype PhpValue = PStr(s: string) | PBool(b: bool) | PInt(i: int) | PNull

  datatype Entry = Entry(key: Key, value: PhpValue)

  type PhpArray = seq<Entry>

  function Values(a: PhpArray): (vs: seq<PhpValue>)
    ensures |vs| == |a|
    ensures forall i :: 0 <= i < |a| ==> vs[i] == a[i].value
  {
    seq(|a|, i requires 0 <= i < |a| => a[i].value)
  }

  /** The position of the first entry with key `k`. */
  function Find(a: PhpArray, k: Key): (r: Option<nat>)
    ensures r.Some? ==> r.value < |a| && a[r.value].key == k
    ensures r.Some? ==> forall j :: 0 <= j < r.value ==> a[j].key != k
    ensures r.None? <==> forall j :: 0 <= j < |a| ==> a[j].key != k
    decreases |a|
  {
    if a == [] then None
    else if a[0].key == k then Some(0)
    else
      var r := Find(a[1..], k);
      if r.Some? then Some(r.value + 1) else None
  }

  /** `$a[$k] ?? null`. */
  function Lookup(a: PhpArray, k: Key): Option<PhpValue> {
    var p := Find(a, k);
    if p.Some? then Some(a[p.value].value) else None
  }

  /** How many integer keys the array has. */
  function IndexCount(a: PhpArray): nat
    decreases |a|
  {
    if a == [] then 0
    else IndexCount(a[..|a| - 1]) + (if a[|a| - 1].key.Index? then 1 else 0)
  }

  /** One step of `array_merge`: an integer-keyed entry is appended under the
      next index; a string-keyed entry overwrites the value of an existing
      entry with that key in place, or is appended. */
  function Put(acc: PhpArray, e: Entry): (r: PhpArray)
    ensures |r| == |acc| || |r| == |acc| + 1
  {
    match e.key
    case Index(_) => acc + [Entry(Index(IndexCount(acc)), e.value)]
    case Name(_) =>
      var p := Find(acc, e.key);
      if p.Some? then acc[p.value := e] else acc + [e]
  }

  function PutAll(acc: PhpArray, es: PhpArray): PhpArray
    decreases |es|
  {
    if es == [] then acc
    else Put(PutAll(acc, es[..|es| - 1]), es[|es| - 1])
  }

  /** `array_merge($a, $b)`: integer keys renumbered from zero, later string
      keys win. */
  function ArrayMerge(a: PhpArray, b: PhpArray): PhpArray {
    PutAll(PutAll([], a), b)
  }

  /** The four direct flags, each set to `true` under its own name when the
      record's column is not empty (lines 328-331). */
  function DirectOptions(factory: bool, policy: bool, seeder: bool, controller: bool): PhpArray {
    (if factory then [Entry(Name("factory"), PBool(true))] else [])
    + (if policy then [Entry(Name("policy"), PBool(true))] else [])
    + (if seeder then [Entry(Name("seeder"), PBool(true))] else [])
    + (if controller then [Entry(Name("controller"), PBool(true))] else [])
  }

  /** `unset($a[$name])`. */
  function Unset(a: PhpArray, name: string): PhpArray
    decreases |a|
  {
    if a == [] then []
    else (if a[0].key == Name(name) then [] else [a[0]]) + Unset(a[1..], name)
  }

  /** Lines 324-347: the direct flags, the (vacuous) removal of the old
      relationship toggles, then the merge with `model_options` when that is
      a non-empty array. A stored value that is not an array is given here as
      the empty array, which the source treats the same way. */
  function MergedOptions(modelOptions: PhpArray, factory: bool, policy: bool, seeder: bool, controller: bool): PhpArray {
    var direct := DirectOptions(factory, policy, seeder, controller);
    var cleaned := Unset(Unset(Unset(direct, "relationships"), "has_many"), "belongs_to_many");
    if modelOptions != [] then ArrayMerge(modelOptions, cleaned) else cleaned
  }

  // ---------------------------------------------------------------------------
  // in_array
  // ---------------------------------------------------------------------------

  /** PHP 8's `'casts' == $v` on the values an option array can hold: string
      equality for a string, truthiness of "casts" (always true) for a
      boolean, and false for an integer (compared as the string "<i>") or
      null (compared as ""). */
  predicate LooseEqualsCasts(v: PhpValue) {
    match v
    case PStr(s) => s == "casts"
    case PBool(b) => b
    case PInt(_) => false
    case PNull => false
  }

  /** `in_array('casts', $a)` without the strict flag. */
  predicate InArrayLooseCasts(a: PhpArray) {
    exists i :: 0 <= i < |a| && LooseEqualsCasts(a[i].value)
  }

  /** `in_array($needle, $a, true)`. */
  predicate InArrayStrict(a: PhpArray, needle: PhpValue) {
    needle in Values(a)
  }

  /** Line 440 as written: `!empty($options) && in_array('casts', $options)`. */
  predicate CastsRequestedAsWritten(modelOptions: PhpArray, factory: bool, policy: bool, seeder: bool, controller: bool) {
    var options := MergedOptions(modelOptions, factory, policy, seeder, controller);
    options != [] && InArrayLooseCasts(options)
  }

  /** Line 440 as evidently intended: the option "casts" was chosen. */
  predicate CastsRequested(modelOptions: PhpArray, factory: bool, policy: bool, seeder: bool, controller: bool) {
    var options := MergedOptions(modelOptions, factory, policy, seeder, controller);
    options != [] && InArrayStrict(options, PStr("casts"))
  }

  /** An option array that is a plain list, as a checkbox list stores it. */
  predicate IsList(a: PhpArray) {
    forall i :: 0 <= i < |a| ==> a[i].key.Index?
  }

  predicate AnyFlag(factory: bool, policy: bool, seeder: bool, controller: bool) {
    factory || policy || seeder || controller
  }

  // ---------------------------------------------------------------------------
  // Properties
  // ---------------------------------------------------------------------------

  /** The direct flags are `true` values under flag names, and there are
      none exactly when no flag is set. */
  lemma DirectOptionsShape(factory: bool, policy: bool, seeder: bool, controller: bool)
    ensures var d := DirectOptions(factory, policy, seeder, controller);
      (forall i :: 0 <= i < |d| ==> d[i].value == PBool(true) && d[i].key.Name?) &&
      (d == [] <==> !AnyFlag(factory, policy, seeder, controller))
  {
    var d := DirectOptions(factory, policy, seeder, controller);
    forall i | 0 <= i < |d| ensures d[i].value == PBool(true) && d[i].key.Name? {
      DirectKeys(factory, policy, seeder, controller, i);
    }
  }

  function IndexOfName(n: string): nat {
    if n == "factory" then 0 else if n == "policy" then 1 else if n == "seeder" then 2 else 3
  }

  lemma FindDirect(factory: bool, policy: bool, seeder: bool, controller: bool, n: string)
    requires n in ["factory", "policy", "seeder", "controller"]
    ensures Find(DirectOptions(factory, policy, seeder, controller), Name(n)).Some? <==>
      [factory, policy, seeder, controller][IndexOfName(n)]
  {
    var d := DirectOptions(factory, policy, seeder, controller);
    if [factory, policy, seeder, controller][IndexOfName(n)] {
      var i :| 0 <= i < |d| && d[i].key == Name(n) by {
        DirectMember(factory, policy, seeder, controller, n);
      }
    } else {
      forall j | 0 <= j < |d| ensures d[j].key != Name(n) {
        DirectKeys(factory, policy, seeder, controller, j);
      }
    }
  }

  lemma DirectMember(factory: bool, policy: bool, seeder: bool, controller: bool, n: string)
    requires n in ["factory", "policy", "seeder", "controller"]
    requires [factory, policy, seeder, controller][IndexOfName(n)]
    ensures Entry(Name(n), PBool(true)) in DirectOptions(factory, policy, seeder, controller)
  {
  }

  lemma DirectKeys(factory: bool, policy: bool, seeder: bool, controller: bool, j: nat)
    requires j < |DirectOptions(factory, policy, seeder, controller)|
    ensures var e := DirectOptions(factory, policy, seeder, controller)[j];
      e.value == PBool(true) && e.key.Name? && e.key.name in ["factory", "policy", "seeder", "controller"] &&
      [factory, policy, seeder, controller][IndexOfName(e.key.name)]
  {
    var d := DirectOptions(factory, policy, seeder, controller);
    assert d[j] in d;
  }

  /** Removing a key that is not present changes nothing; the three removals
      of line 334-336 are therefore no-ops. */
  lemma {:induction false} UnsetAbsent(a: PhpArray, name: string)
    requires Find(a, Name(name)).None?
    ensures Unset(a, name) == a
    decreases |a|
  {
    if a != [] {
      assert Find(a[1..], Name(name)).None?;
      UnsetAbsent(a[1..], name);
    }
  }

  lemma CleanedIsDirect(factory: bool, policy: bool, seeder: bool, controller: bool)
    ensures var d := DirectOptions(factory, policy, seeder, controller);
      Unset(Unset(Unset(d, "relationships"), "has_many"), "belongs_to_many") == d
  {
    var d := DirectOptions(factory, policy, seeder, controller);
    forall n | n in ["relationships", "has_many", "belongs_to_many"]
      ensures Find(d, Name(n)).None?
    {
      forall j | 0 <= j < |d| ensures d[j].key != Name(n) {
        DirectKeys(factory, policy, seeder, controller, j);
      }
    }
    UnsetAbsent(d, "relationships");
    UnsetAbsent(d, "has_many");
    UnsetAbsent(d, "belongs_to_many");
  }

  /** None of the old relationship toggles is among the direct flags. */
  lemma DirectLacksToggles(factory: bool, policy: bool, seeder: bool, controller: bool)
    ensures var d := DirectOptions(factory, policy, seeder, controller);
      Find(d, Name("relationships")).None? && Find(d, Name("has_many")).None? &&
      Find(d, Name("belongs_to_many")).None?
  {
    var d := DirectOptions(factory, policy, seeder, controller);
    forall n, j | n in ["relationships", "has_many", "belongs_to_many"] && 0 <= j < |d|
      ensures d[j].key != Name(n)
    {
      DirectKeys(factory, policy, seeder, controller, j);
    }
  }

  /** After a put of a string key, looking that key up gives the new value;
      other string keys keep theirs. */
  lemma PutLookup(acc: PhpArray, e: Entry, k: Key)
    requires k.Name?
    ensures Lookup(Put(acc, e), k) == if e.key == k then Some(e.value) else Lookup(acc, k)
  {
    var r := Put(acc, e);
    var p := Find(acc, k);
    if e.key.Index? {
      FindAppend(acc, Entry(Index(IndexCount(acc)), e.value), k);
    } else {
      var q := Find(acc, e.key);
      if q.Some? {
        FindUpdate(acc, q.value, e, k);
      } else {
        FindAppend(acc, e, k);
      }
    }
  }

  lemma {:induction false} FindAppend(acc: PhpArray, e: Entry, k: Key)
    ensures Find(acc + [e], k) == if Find(acc, k).Some? then Find(acc, k) else if e.key == k then Some(|acc|) else None
    decreases |acc|
  {
    if acc != [] {
      assert (acc + [e])[1..] == acc[1..] + [e];
      FindAppend(acc[1..], e, k);
    }
  }

  lemma {:induction false} FindUpdate(acc: PhpArray, q: nat, e: Entry, k: Key)
    requires Find(acc, e.key) == Some(q)
    ensures Find(acc[q := e], k) == Find(acc, k)
    decreases |acc|
  {
    if q > 0 {
      assert acc[q := e][1..] == acc[1..][q - 1 := e];
      assert Find(acc[1..], e.key) == Some(q - 1);
      FindUpdate(acc[1..], q - 1, e, k);
    }
  }

  /** The direct flags win the merge: a set flag reads back as `true` under
      its own name whatever `model_options` held there. */
  lemma {:induction false} PutAllLookupLast(acc: PhpArray, es: PhpArray, k: Key, j: nat)
    requires k.Name? && j < |es| && es[j].key == k
    requires forall i :: j < i < |es| ==> es[i].key != k
    ensures Lookup(PutAll(acc, es), k) == Some(es[j].value)
    decreases |es|
  {
    var init := es[..|es| - 1];
    PutLookup(PutAll(acc, init), es[|es| - 1], k);
    if j < |es| - 1 {
      PutAllLookupLast(acc, init, k, j);
    }
  }

  lemma FlagsWinMerge(modelOptions: PhpArray, factory: bool, policy: bool, seeder: bool, controller: bool, n: string)
    requires n in ["factory", "policy", "seeder", "controller"]
    requires [factory, policy, seeder, controller][IndexOfName(n)]
    ensures Lookup(MergedOptions(modelOptions, factory, policy, seeder, controller), Name(n)) == Some(PBool(true))
  {
    var d := DirectOptions(factory, policy, seeder, controller);
    CleanedIsDirect(factory, policy, seeder, controller);
    FindDirect(factory, policy, seeder, controller, n);
    var j := Find(d, Name(n)).value;
    DirectKeys(factory, policy, seeder, controller, j);
    forall i | j < i < |d| ensures d[i].key != Name(n) {
      DirectKeys(factory, policy, seeder, controller, i);
      DirectUnique(factory, policy, seeder, controller, j, i);
    }
    if modelOptions != [] {
      PutAllLookupLast(PutAll([], modelOptions), d, Name(n), j);
    }
  }

  lemma DirectUnique(factory: bool, policy: bool, seeder: bool, controller: bool, j: nat, i: nat)
    requires j < i < |DirectOptions(factory, policy, seeder, controller)|
    ensures DirectOptions(factory, policy, seeder, controller)[j].key != DirectOptions(factory, policy, seeder, controller)[i].key
  {
  }

  /** Merging a list renumbers it and appends the direct flags. */
  lemma {:induction false} PutAllList(a: PhpArray)
    requires IsList(a)
    ensures Values(PutAll([], a)) == Values(a)
    ensures IsList(PutAll([], a))
    decreases |a|
  {
    if a != [] {
      var init := a[..|a| - 1];
      PutAllList(init);
      var r := PutAll([], init);
      assert PutAll([], a) == r + [Entry(Index(IndexCount(r)), a[|a| - 1].value)];
      assert Values(a) == Values(init) + [a[|a| - 1].value];
    }
  }

  lemma {:induction false} PutAllNamesOnList(acc: PhpArray, d: PhpArray)
    requires IsList(acc)
    requires forall i :: 0 <= i < |d| ==> d[i].key.Name?
    requires forall i, j :: 0 <= i < j < |d| ==> d[i].key != d[j].key
    ensures PutAll(acc, d) == acc + d
    decreases |d|
  {
    if d != [] {
      var init := d[..|d| - 1];
      PutAllNamesOnList(acc, init);
      var last := d[|d| - 1];
      forall i | 0 <= i < |acc + init| ensures (acc + init)[i].key != last.key {
        if i >= |acc| {
          assert (acc + init)[i] == d[i - |acc|];
        }
      }
      assert Find(acc + init, last.key).None?;
      assert acc + init + [last] == acc + d;
    }
  }

  /** For an option list, the values after the merge are the list's values
      followed by one `true` per set flag. */
  lemma MergedValuesOfList(modelOptions: PhpArray, factory: bool, policy: bool, seeder: bool, controller: bool)
    requires IsList(modelOptions)
    ensures Values(MergedOptions(modelOptions, factory, policy, seeder, controller)) ==
      Values(modelOptions) + Values(DirectOptions(factory, policy, seeder, controller))
  {
    var d := DirectOptions(factory, policy, seeder, controller);
    CleanedIsDirect(factory, policy, seeder, controller);
    forall i | 0 <= i < |d| ensures d[i].key.Name? {
      DirectKeys(factory, policy, seeder, controller, i);
    }
    forall i, j | 0 <= i < j < |d| ensures d[i].key != d[j].key {
      DirectUnique(factory, policy, seeder, controller, i, j);
    }
    if modelOptions != [] {
      PutAllList(modelOptions);
      PutAllNamesOnList(PutAll([], modelOptions), d);
      ValuesAppend(PutAll([], modelOptions), d);
    } else {
      assert Values(modelOptions) == [];
    }
  }

  lemma ValuesAppend(a: PhpArray, b: PhpArray)
    ensures Values(a + b) == Values(a) + Values(b)
  {
  }

  /** The corrected test, on an option list: casts are emitted exactly when
      "casts" was chosen, whichever direct flags are set. */
  lemma CastsRequestedOnList(modelOptions: PhpArray, factory: bool, policy: bool, seeder: bool, controller: bool)
    requires IsList(modelOptions)
    ensures CastsRequested(modelOptions, factory, policy, seeder, controller) <==> PStr("casts") in Values(modelOptions)
  {
    MergedValuesOfList(modelOptions, factory, policy, seeder, controller);
    var d := DirectOptions(factory, policy, seeder, controller);
    forall i | 0 <= i < |d| ensures d[i].value == PBool(true) {
      DirectKeys(factory, policy, seeder, controller, i);
    }
    assert PStr("casts") !in Values(d);
  }

  /** As written, on an option list: casts are requested exactly when a
      direct flag is set or a chosen option loosely equals "casts". */
  lemma CastsRequestedAsWrittenOnList(modelOptions: PhpArray, factory: bool, policy: bool, seeder: bool, controller: bool)
    requires IsList(modelOptions)
    ensures CastsRequestedAsWritten(modelOptions, factory, policy, seeder, controller) <==>
      AnyFlag(factory, policy, seeder, controller) ||
      exists i :: 0 <= i < |modelOptions| && LooseEqualsCasts(modelOptions[i].value)
  {
    var options := MergedOptions(modelOptions, factory, policy, seeder, controller);
    var d := DirectOptions(factory, policy, seeder, controller);
    if AnyFlag(factory, policy, seeder, controller) {
      AnyFlagTurnsCastsOn(modelOptions, factory, policy, seeder, controller);
    } else {
      MergedValuesOfList(modelOptions, factory, policy, seeder, controller);
      DirectOptionsShape(factory, policy, seeder, controller);
      assert Values(options) == Values(modelOptions);
      if exists i :: 0 <= i < |modelOptions| && LooseEqualsCasts(modelOptions[i].value) {
        var i :| 0 <= i < |modelOptions| && LooseEqualsCasts(modelOptions[i].value);
        assert Values(options)[i] == modelOptions[i].value;
        assert LooseEqualsCasts(options[i].value);
      }
      if InArrayLooseCasts(options) {
        var i :| 0 <= i < |options| && LooseEqualsCasts(options[i].value);
        assert Values(modelOptions)[i] == options[i].value;
      }
    }
  }

  /** As written, any set direct flag switches casts on, because the loose
      comparison `'casts' == true` holds. */
  lemma AnyFlagTurnsCastsOn(modelOptions: PhpArray, factory: bool, policy: bool, seeder: bool, controller: bool)
    requires AnyFlag(factory, policy, seeder, controller)
    ensures CastsRequestedAsWritten(modelOptions, factory, policy, seeder, controller)
  {
    var n := if factory then "factory" else if policy then "policy" else if seeder then "seeder" else "controller";
    FlagsWinMerge(modelOptions, factory, policy, seeder, controller, n);
    var options := MergedOptions(modelOptions, factory, policy, seeder, controller);
    var p := Find(options, Name(n));
    assert LooseEqualsCasts(options[p.value].value);
  }

  /** The discrepancy on a concrete input: no options chosen, only the
      factory flag set. */
  lemma CastsWithoutAsking()
    ensures CastsRequestedAsWritten([], true, false, false, false)
    ensures !CastsRequested([], true, false, false, false)
  {
    AnyFlagTurnsCastsOn([], true, false, false, false);
    CastsRequestedOnList([], true, false, false, false);
  }

  /** The strict test implies the loose one: the correction only removes
      spurious `$casts` blocks. */
  lemma CorrectedIsStricter(modelOptions: PhpArray, factory: bool, policy: bool, seeder: bool, controller: bool)
    ensures CastsRequested(modelOptions, factory, policy, seeder, controller) ==>
      CastsRequestedAsWritten(modelOptions, factory, policy, seeder, controller)
  {
    var options := MergedOptions(modelOptions, factory, policy, seeder, controller);
    if InArrayStrict(options, PStr("casts")) {
      var vs := Values(options);
      var i :| 0 <= i < |vs| && vs[i] == PStr("casts");
      assert LooseEqualsCasts(options[i].value);
    }
  }
}
