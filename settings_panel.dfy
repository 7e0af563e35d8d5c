/** The settings form: a copy of the player's name and settings that the panel's
    controls edit, and the save that commits it and writes it to the store. */
module SettingsPanel {
  import opened Util
  import opened GameConstants
  import opened Problems
  import opened Storage

  datatype FormData = FormData(name: string, settings: GameSettings)

  // ---------------------------------------------------------------------
  // Presets

  /** `handleDifficultySelect(preset)`: the preset's bounds and problem count replace the form's. */
  function SelectPreset(f: FormData, p: Preset): (g: FormData)
    ensures g.name == f.name
    ensures g.settings.minNumber == p.min && g.settings.maxNumber == p.max && g.settings.problemCount == p.problemCount
    ensures g.settings.enabledOperations == f.settings.enabledOperations
    ensures g.settings.variableCount == f.settings.variableCount
  {
    f.(settings := f.settings.(minNumber := p.min, maxNumber := p.max, problemCount := p.problemCount))
  }

  /** Choosing a preset forgets any earlier preset choice, and choosing one of the
      game's presets leaves settings the generator can use with a non-empty range. */
  lemma PresetChoices(f: FormData, p: Preset, q: Preset)
    ensures SelectPreset(SelectPreset(f, p), q) == SelectPreset(f, q)
    ensures p in DifficultyPresets && f.settings.variableCount >= 1 ==>
      GeneratorReady(SelectPreset(f, p).settings) && p.min < p.max
  {
    if p in DifficultyPresets {
      PresetsWellFormed();
      var i :| 0 <= i < |DifficultyPresets| && DifficultyPresets[i] == p;
    }
  }

  // ---------------------------------------------------------------------
  // Operations

  /** `xs.filter(y => y !== x)`. */
  function Remove(xs: seq<string>, x: string): seq<string>
    decreases |xs|
  {
    if xs == [] then []
    else if xs[0] == x then Remove(xs[1..], x)
    else [xs[0]] + Remove(xs[1..], x)
  }

  /** The filter drops every copy of x and keeps every copy of everything else. */
  lemma {:induction false} RemoveMultiset(xs: seq<string>, x: string)
    ensures multiset(Remove(xs, x)) == multiset(xs)[x := 0]
    decreases |xs|
  {
    if xs != [] {
      assert xs == [xs[0]] + xs[1..];
      RemoveMultiset(xs[1..], x);
    }
  }

  lemma {:induction false} RemoveAbsent(xs: seq<string>, x: string)
    requires x !in xs
    ensures Remove(xs, x) == xs
    decreases |xs|
  {
    if xs != [] {
      RemoveAbsent(xs[1..], x);
    }
  }

  /** Removing the one occurrence of x keeps the other elements in their order. */
  lemma {:induction false} RemoveSplit(a: seq<string>, x: string, b: seq<string>)
    requires x !in a && x !in b
    ensures Remove(a + [x] + b, x) == a + b
    decreases |a|
  {
    var t := a + [x] + b;
    if a == [] {
      assert t[0] == x && t[1..] == b;
      RemoveAbsent(b, x);
    } else {
      assert t[0] == a[0] && t[1..] == a[1..] + [x] + b;
      assert a[0] in a;
      RemoveSplit(a[1..], x, b);
      assert a + b == [a[0]] + (a[1..] + b);
    }
  }

  /** `handleOperationToggle(operation)`: turn an operation off (never the last one)
      or on, appending it; turning division on also sets two terms per problem. */
  function ToggleOperation(f: FormData, operation: string): (g: FormData)
    ensures g.name == f.name
    ensures g.settings.(enabledOperations := f.settings.enabledOperations, variableCount := f.settings.variableCount) == f.settings
    ensures operation in f.settings.enabledOperations && |f.settings.enabledOperations| == 1 ==> g == f
    ensures operation in f.settings.enabledOperations && |f.settings.enabledOperations| != 1 ==>
      g.settings.enabledOperations == Remove(f.settings.enabledOperations, operation)
      && g.settings.variableCount == f.settings.variableCount
    ensures operation !in f.settings.enabledOperations ==>
      g.settings.enabledOperations == f.settings.enabledOperations + [operation]
      && g.settings.variableCount == (if operation == "division" then 2 else f.settings.variableCount)
  {
    var currentOps := f.settings.enabledOperations;
    if operation in currentOps then
      if |currentOps| == 1 then f
      else f.(settings := f.settings.(enabledOperations := Remove(currentOps, operation)))
    else if operation == "division" then
      f.(settings := f.settings.(enabledOperations := currentOps + [operation], variableCount := 2))
    else
      f.(settings := f.settings.(enabledOperations := currentOps + [operation]))
  }

  /** On a repetition-free list, removing the element at k leaves the rest in order, still repetition-free. */
  lemma RemoveFromDistinct(xs: seq<string>, k: int)
    requires Distinct(xs) && 0 <= k < |xs|
    ensures Remove(xs, xs[k]) == xs[..k] + xs[k + 1..]
    ensures Distinct(xs[..k] + xs[k + 1..])
  {
    var x := xs[k];
    assert xs == xs[..k] + [x] + xs[k + 1..];
    forall i | 0 <= i < k ensures xs[..k][i] != x { assert xs[i] != xs[k]; }
    forall i | k + 1 <= i < |xs| ensures xs[i] != x { assert xs[i] != xs[k]; }
    assert x !in xs[k + 1..];
    RemoveSplit(xs[..k], x, xs[k + 1..]);
    DistinctWithout(xs, k);
  }

  lemma DistinctWithout(xs: seq<string>, k: int)
    requires Distinct(xs) && 0 <= k < |xs|
    ensures Distinct(xs[..k] + xs[k + 1..])
  {
    var r := xs[..k] + xs[k + 1..];
    assert forall i :: 0 <= i < |r| ==> r[i] == xs[if i < k then i else i + 1];
    forall i, j | 0 <= i < j < |r| ensures r[i] != r[j] {
      var i', j' := if i < k then i else i + 1, if j < k then j else j + 1;
      assert r[i] == xs[i'] && r[j] == xs[j'] && i' < j';
    }
  }

  lemma AppendFreshKeepsDistinct(xs: seq<string>, x: string)
    requires Distinct(xs) && x !in xs
    ensures Distinct(xs + [x])
  {
    var r := xs + [x];
    forall i, j | 0 <= i < j < |r| ensures r[i] != r[j] {
      if j == |xs| {
        assert r[i] == xs[i];
      } else {
        assert r[i] == xs[i] && r[j] == xs[j];
      }
    }
  }

  /** A toggle changes the membership of the toggled operation only, and never of the
      last one; on a repetition-free list the result is still repetition-free and non-empty. */
  lemma ToggleMembership(f: FormData, operation: string)
    requires Distinct(f.settings.enabledOperations) && |f.settings.enabledOperations| >= 1
    ensures var before, after := f.settings.enabledOperations, ToggleOperation(f, operation).settings.enabledOperations;
      && Distinct(after) && |after| >= 1
      && (forall y :: y != operation ==> (y in after <==> y in before))
      && (operation in after <==> operation !in before || before == [operation])
  {
    var before := f.settings.enabledOperations;
    var after := ToggleOperation(f, operation).settings.enabledOperations;
    if operation in before && |before| != 1 {
      var k :| 0 <= k < |before| && before[k] == operation;
      RemoveFromDistinct(before, k);
      RemoveMultiset(before, operation);
      assert |after| == |before| - 1;
      forall y | y != operation ensures y in after <==> y in before {
        assert multiset(after)[y] == multiset(before)[y];
      }
      assert multiset(after)[operation] == 0;
    } else if operation !in before {
      AppendFreshKeepsDistinct(before, operation);
    } else {
      assert before == [operation];
    }
  }

  /** Turning an operation on and off again restores the form, unless division's
      forced variable count changed it. */
  lemma ToggleTwiceRestores(f: FormData, operation: string)
    requires operation !in f.settings.enabledOperations && |f.settings.enabledOperations| >= 1
    requires operation != "division" || f.settings.variableCount == 2
    ensures ToggleOperation(ToggleOperation(f, operation), operation) == f
  {
    var ops := f.settings.enabledOperations;
    RemoveSplit(ops, operation, []);
    assert ops + [operation] + [] == ops + [operation];
    assert ops + [] == ops;
  }

  // ---------------------------------------------------------------------
  // Terms per problem

  /** The variable-count input is disabled while division is enabled. */
  predicate VariableInputEnabled(f: FormData) {
    "division" !in f.settings.enabledOperations
  }

  /** `handleVariableCountChange`: the typed value is applied only when it parses to 2..5. */
  function SetVariableCount(f: FormData, text: string): (g: FormData)
    ensures g == f || (g == f.(settings := f.settings.(variableCount := g.settings.variableCount)) && 2 <= g.settings.variableCount <= 5)
  {
    match ParseInt(text)
    case Some(count) =>
      if 2 <= count <= 5 then f.(settings := f.settings.(variableCount := count)) else f
    case None => f
  }

  /** A value the input produces is applied exactly when it lies in 2..5. */
  lemma SetVariableCountRange(f: FormData, count: int)
    ensures SetVariableCount(f, IntToString(count)) ==
      if 2 <= count <= 5 then f.(settings := f.settings.(variableCount := count)) else f
  {
    ParseIntOfIntToString(count);
  }

  // ---------------------------------------------------------------------
  // The form invariant

  predicate KnownOperation(name: string) {
    exists i :: 0 <= i < |Operations| && Operations[i].value == name
  }

  /** What the form keeps: at least one operation, no repeats, only the panel's
      operations, and two terms whenever division is on. */
  predicate FormOk(f: FormData) {
    && |f.settings.enabledOperations| >= 1
    && Distinct(f.settings.enabledOperations)
    && (forall i :: 0 <= i < |f.settings.enabledOperations| ==> KnownOperation(f.settings.enabledOperations[i]))
    && ("division" in f.settings.enabledOperations ==> f.settings.variableCount == 2)
  }

  /** Every control of the panel keeps the form invariant. */
  lemma ControlsKeepFormOk(f: FormData, p: Preset, operation: string, text: string)
    requires FormOk(f)
    ensures FormOk(SelectPreset(f, p))
    ensures KnownOperation(operation) ==> FormOk(ToggleOperation(f, operation))
    ensures VariableInputEnabled(f) ==> FormOk(SetVariableCount(f, text))
  {
    if KnownOperation(operation) {
      ToggleMembership(f, operation);
      var after := ToggleOperation(f, operation).settings.enabledOperations;
      forall i | 0 <= i < |after| ensures KnownOperation(after[i]) {
        if after[i] != operation {
          assert after[i] in after;
          var k :| 0 <= k < |f.settings.enabledOperations| && f.settings.enabledOperations[k] == after[i];
        }
      }
    }
  }

  /** The controls keep settings the generator can use: the presets have positive bounds,
      a toggle leaves the bounds alone and sets at most two terms, and the variable input
      only accepts 2..5. */
  lemma ControlsKeepGeneratorReady(f: FormData, p: Preset, operation: string, text: string)
    requires GeneratorReady(f.settings)
    ensures p in DifficultyPresets ==> GeneratorReady(SelectPreset(f, p).settings)
    ensures GeneratorReady(ToggleOperation(f, operation).settings)
    ensures GeneratorReady(SetVariableCount(f, text).settings)
  {
    PresetChoices(f, p, p);
  }

  /** Under the invariant every enabled operation has a generator branch, so the
      default `[1, 1]` problem never appears. */
  lemma FormOkNeverDefaults(f: FormData, roll: nat)
    requires FormOk(f)
    ensures OperatorFor(ChosenOperation(f.settings, roll)).Some?
  {
    var name := ChosenOperation(f.settings, roll);
    var k :| 0 <= k < |f.settings.enabledOperations| && f.settings.enabledOperations[k] == name;
    OperatorForKnowsOnlyTheOptions(name);
  }

  // ---------------------------------------------------------------------
  // Saving

  /** The characters `String.prototype.trim` removes: white space and line terminators. */
  predicate JsSpace(c: char) {
    || c == '\t' || c == '\n' || c == '\U{000B}' || c == '\U{000C}' || c == '\r' || c == ' '
    || c == '\U{00A0}' || c == '\U{1680}' || ('\U{2000}' <= c <= '\U{200A}')
    || c == '\U{2028}' || c == '\U{2029}' || c == '\U{202F}' || c == '\U{205F}'
    || c == '\U{3000}' || c == '\U{FEFF}'
  }

  function LeadingSpaces(s: string): (n: nat)
    ensures n <= |s| && (forall i :: 0 <= i < n ==> JsSpace(s[i])) && (n < |s| ==> !JsSpace(s[n]))
    decreases |s|
  {
    if s == [] || !JsSpace(s[0]) then 0 else 1 + LeadingSpaces(s[1..])
  }

  function TrailingSpaces(s: string): (n: nat)
    ensures n <= |s| && (forall i :: |s| - n <= i < |s| ==> JsSpace(s[i])) && (n < |s| ==> !JsSpace(s[|s| - 1 - n]))
    decreases |s|
  {
    if s == [] || !JsSpace(s[|s| - 1]) then 0 else 1 + TrailingSpaces(s[..|s| - 1])
  }

  /** `s.trim()`: the slice of s left after dropping white space at both ends. */
  function Trim(s: string): (r: string)
    ensures r == [] <==> forall i :: 0 <= i < |s| ==> JsSpace(s[i])
    ensures r != [] ==> !JsSpace(r[0]) && !JsSpace(r[|r| - 1])
  {
    var t := s[LeadingSpaces(s)..];
    t[..|t| - TrailingSpaces(t)]
  }

  /** The trimmed name is the part of the name between white space at its two ends. */
  lemma TrimIsSlice(s: string)
    ensures exists a, b ::
      (&& 0 <= a <= b <= |s| && Trim(s) == s[a..b]
       && (forall i :: 0 <= i < a ==> JsSpace(s[i])) && (forall i :: b <= i < |s| ==> JsSpace(s[i])))
  {
    var a := LeadingSpaces(s);
    var t := s[a..];
    var n := TrailingSpaces(t);
    var b := a + |t| - n;
    assert t[..|t| - n] == s[a..b];
    forall i | b <= i < |s| ensures JsSpace(s[i]) {
      assert s[i] == t[i - a];
    }
  }

  lemma TrimIdempotent(s: string)
    ensures Trim(Trim(s)) == Trim(s)
  {
    var r := Trim(s);
    if r != [] {
      assert LeadingSpaces(r) == 0;
      assert TrailingSpaces(r) == 0;
      assert r[0..][..|r|] == r;
    }
  }

  /** The save button is enabled exactly when the trimmed name is not empty. */
  predicate SaveEnabled(f: FormData) {
    Trim(f.name) != []
  }

  /** What a successful save hands back to the game: the trimmed name and the form's settings. */
  datatype Commit = Commit(playerName: string, settings: GameSettings)

  /** One settings value as the save loop sees it. */
  datatype SettingValue = Number(n: int) | Names(names: seq<string>)

  /** `Object.entries(formData.settings)`, in the settings' key order. */
  function Fields(s: GameSettings): seq<(string, SettingValue)> {
    [ ("minNumber", Number(s.minNumber)),
      ("maxNumber", Number(s.maxNumber)),
      ("problemCount", Number(s.problemCount)),
      ("enabledOperations", Names(s.enabledOperations)),
      ("variableCount", Number(s.variableCount)) ]
  }

  /** `JSON.stringify(value)`. */
  function Stringify(v: SettingValue): string {
    match v
    case Number(n) => IntToString(n)
    case Names(xs) => JsonStringList(xs)
  }

  /** `value.toString()`; a list of names would be written comma-joined. */
  function ToText(v: SettingValue): string {
    match v
    case Number(n) => IntToString(n)
    case Names(xs) => CommaJoin(xs)
  }

  function CommaJoin(xs: seq<string>): string
    decreases |xs|
  {
    if xs == [] then "" else if |xs| == 1 then xs[0] else xs[0] + "," + CommaJoin(xs[1..])
  }

  /** The loop writes, for each field, the text `SettingsEntries` lists for it. */
  lemma FieldTexts(s: GameSettings, i: int)
    requires 0 <= i < 5
    ensures var (key, value) := Fields(s)[i];
      (if key == "enabledOperations" then Stringify(value) else ToText(value)) == SettingsEntries(s)[i].1
      && key == SettingsEntries(s)[i].0
  {
  }

  /** `handleSave`: nothing when the trimmed name is empty; otherwise commit the trimmed
      name and the form's settings, store the name, then store each setting in turn,
      the operation list as JSON and every other value as text. */
  method HandleSave(f: FormData, store: Store) returns (commit: Option<Commit>, saved: Store)
    ensures !SaveEnabled(f) ==> commit == None && saved == store
    ensures SaveEnabled(f) ==>
      commit == Some(Commit(Trim(f.name), f.settings)) && saved == SavedStore(store, Trim(f.name), f.settings)
  {
    var trimmedName := Trim(f.name);
    if trimmedName == [] {
      return None, store;
    }
    commit := Some(Commit(trimmedName, f.settings));
    var named := store[("playerName") := trimmedName];
    saved := named;
    var entries := Fields(f.settings);
    var i := 0;
    while i < |entries|
      invariant 0 <= i <= |entries| == 5
      invariant saved == WriteAll(named, SettingsEntries(f.settings)[..i])
    {
      var (key, value) := entries[i];
      FieldTexts(f.settings, i);
      WriteAllSnoc(named, SettingsEntries(f.settings)[..i], SettingsEntries(f.settings)[i]);
      assert SettingsEntries(f.settings)[..i] + [SettingsEntries(f.settings)[i]] == SettingsEntries(f.settings)[..i + 1];
      if key == "enabledOperations" {
        saved := saved[key := Stringify(value)];
      } else {
        saved := saved[key := ToText(value)];
      }
      i := i + 1;
    }
    assert SettingsEntries(f.settings)[..5] == SettingsEntries(f.settings);
  }

  /** After a successful save the game, reloaded, starts with the saved settings and name
      (for settings that survive the `|| default` reads). */
  lemma SaveThenReload(f: FormData, store: Store)
    requires SaveEnabled(f) && Storable(f.settings)
    ensures LoadSettings(SavedStore(store, Trim(f.name), f.settings)) == Some(f.settings)
    ensures LoadName(SavedStore(store, Trim(f.name), f.settings)) == Trim(f.name)
  {
    LoadAfterSave(store, Trim(f.name), f.settings);
  }

  /** A form kept by the controls, with positive bounds, always survives the store. */
  lemma FormOkIsStorable(f: FormData)
    requires FormOk(f) && f.settings.minNumber >= 1 && f.settings.maxNumber >= 1
    requires f.settings.problemCount >= 1 && f.settings.variableCount >= 1
    ensures Storable(f.settings)
  {
    forall i | 0 <= i < |f.settings.enabledOperations| ensures Plain(f.settings.enabledOperations[i]) {
      var name := f.settings.enabledOperations[i];
      assert KnownOperation(name);
      var k :| 0 <= k < |Operations| && Operations[k].value == name;
      OperationNamePlain(k);
    }
  }

  /** The panel's operation names need no escaping in JSON. */
  lemma OperationNamePlain(k: int)
    requires 0 <= k < |Operations|
    ensures Plain(Operations[k].value)
  {
    var name := Operations[k].value;
    if k == 0 {
      assert name == "addition";
    } else if k == 1 {
      assert name == "subtraction";
    } else if k == 2 {
      assert name == "multiplication";
    } else {
      assert name == "division";
    }
  }
}
