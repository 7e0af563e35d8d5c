/** The game's persistent settings store (browser local storage) as a map from
    keys to strings, the two decoders the game reads it with (`parseInt` and
    `JSON.parse` of a list of strings), the encoders it writes with
    (`toString` and `JSON.stringify`), and the initial settings the game loads. */
module Storage {
  import opened Util
  import opened Problems

  type Store = map<string, string>

  // ---------------------------------------------------------------------
  // parseInt

  /** The value of a string of decimal digits, most significant first. */
  function DigitsValue(s: string): (v: nat)
    requires forall i :: 0 <= i < |s| ==> IsDigit(s[i])
    decreases |s|
  {
    if s == [] then 0
    else
      assert IsDigit(s[|s| - 1]);
      DigitsValue(s[..|s| - 1]) * 10 + (s[|s| - 1] as int - '0' as int)
  }

  /** Length of the run of digits at the start of s. */
  function DigitRun(s: string): (k: nat)
    ensures k <= |s| && (forall i :: 0 <= i < k ==> IsDigit(s[i])) && (k < |s| ==> !IsDigit(s[k]))
    decreases |s|
  {
    if s == [] || !IsDigit(s[0]) then 0 else 1 + DigitRun(s[1..])
  }

  /** `parseInt(s)` in base 10: an optional sign, then the longest run of digits;
      None (`NaN`) when there is no digit. */
  function ParseInt(s: string): (r: Option<int>)
    ensures r.Some? ==> |s| >= 1
  {
    var negative := |s| > 0 && s[0] == '-';
    var body := if |s| > 0 && (s[0] == '-' || s[0] == '+') then s[1..] else s;
    var k := DigitRun(body);
    if k == 0 then None
    else
      var n: int := DigitsValue(body[..k]);
      Some(if negative then -n else n)
  }

  lemma {:induction false} DigitsValueOfNatToString(n: nat)
    ensures DigitsValue(NatToString(n)) == n
    decreases n
  {
    var s := NatToString(n);
    if n >= 10 {
      DigitsValueOfNatToString(n / 10);
      assert s[..|s| - 1] == NatToString(n / 10);
    }
  }

  lemma {:induction false} DigitRunOfDigits(s: string)
    requires forall i :: 0 <= i < |s| ==> IsDigit(s[i])
    ensures DigitRun(s) == |s|
    decreases |s|
  {
    if s != [] {
      DigitRunOfDigits(s[1..]);
    }
  }

  /** What `toString` writes, `parseInt` reads back. */
  lemma ParseIntOfIntToString(n: int)
    ensures ParseInt(IntToString(n)) == Some(n)
  {
    var digits := NatToString(if n < 0 then -n else n);
    DigitRunOfDigits(digits);
    DigitsValueOfNatToString(if n < 0 then -n else n);
    assert digits[..|digits|] == digits;
    if n < 0 {
      assert IntToString(n) == "-" + digits;
      assert IntToString(n)[1..] == digits;
    } else {
      assert IntToString(n) == digits;
      assert IsDigit(digits[0]);
    }
  }

  // ---------------------------------------------------------------------
  // JSON list of strings

  /** A character `JSON.stringify` writes unescaped inside a string. */
  predicate PlainChar(c: char) {
    c != '"' && c != '\\' && c >= ' '
  }

  predicate Plain(x: string) {
    forall i :: 0 <= i < |x| ==> PlainChar(x[i])
  }

  function Quote(x: string): string {
    "\"" + x + "\""
  }

  function JoinQuoted(xs: seq<string>): string
    decreases |xs|
  {
    if xs == [] then ""
    else if |xs| == 1 then Quote(xs[0])
    else Quote(xs[0]) + "," + JoinQuoted(xs[1..])
  }

  /** `JSON.stringify(xs)` for a list of strings without characters that need escaping. */
  function JsonStringList(xs: seq<string>): string {
    "[" + JoinQuoted(xs) + "]"
  }

  /** Index of the first character at or after i that is not plain (or |t|). */
  function ScanPlain(t: string, i: nat): (j: nat)
    requires i <= |t|
    ensures i <= j <= |t| && (forall k :: i <= k < j ==> PlainChar(t[k])) && (j < |t| ==> !PlainChar(t[j]))
    decreases |t| - i
  {
    if i == |t| || !PlainChar(t[i]) then i else ScanPlain(t, i + 1)
  }

  /** Items `"a","b",...` of a compact JSON array of plain strings; None for anything else. */
  function ParseItems(t: string): Option<seq<string>>
    decreases |t|
  {
    if |t| < 2 || t[0] != '"' then None
    else
      var j := ScanPlain(t, 1);
      if j == |t| || t[j] != '"' then None
      else if j + 1 == |t| then Some([t[1..j]])
      else if t[j + 1] != ',' then None
      else match ParseItems(t[j + 2..])
        case None => None
        case Some(rest) => Some([t[1..j]] + rest)
  }

  /** `JSON.parse(s)` for the compact list-of-strings text `JSON.stringify` produces;
      None stands for every other text. */
  function ParseStringList(s: string): (r: Option<seq<string>>)
    ensures r.Some? ==> forall i :: 0 <= i < |r.value| ==> Plain(r.value[i])
  {
    if |s| < 2 || s[0] != '[' || s[|s| - 1] != ']' then None
    else if |s| == 2 then Some([])
    else
      var r := ParseItems(s[1..|s| - 1]);
      ParseItemsPlain(s[1..|s| - 1]);
      r
  }

  lemma {:induction false} ParseItemsPlain(t: string)
    ensures ParseItems(t).Some? ==> forall i :: 0 <= i < |ParseItems(t).value| ==> Plain(ParseItems(t).value[i])
    decreases |t|
  {
    if |t| >= 2 && t[0] == '"' {
      var j := ScanPlain(t, 1);
      if j < |t| && t[j] == '"' && j + 1 < |t| && t[j + 1] == ',' {
        ParseItemsPlain(t[j + 2..]);
      }
    }
  }

  lemma {:induction false} ScanPlainStopsAtQuote(x: string, after: string)
    requires Plain(x)
    ensures ScanPlain(Quote(x) + after, 1) == |x| + 1
  {
    var t := Quote(x) + after;
    ScanPlainFrom(t, 1, |x| + 1);
  }

  lemma {:induction false} ScanPlainFrom(t: string, i: nat, j: nat)
    requires i <= j < |t| && (forall k :: i <= k < j ==> PlainChar(t[k])) && !PlainChar(t[j])
    ensures ScanPlain(t, i) == j
    decreases j - i
  {
    if i < j {
      ScanPlainFrom(t, i + 1, j);
    }
  }

  lemma {:induction false} ParseJoinQuoted(xs: seq<string>)
    requires |xs| >= 1 && forall i :: 0 <= i < |xs| ==> Plain(xs[i])
    ensures ParseItems(JoinQuoted(xs)) == Some(xs)
    decreases |xs|
  {
    var x := xs[0];
    if |xs| == 1 {
      var t := Quote(x);
      ScanPlainStopsAtQuote(x, "");
      assert t + "" == t;
      assert ScanPlain(t, 1) == |x| + 1;
      assert t[|x| + 1] == '"' && |t| == |x| + 2;
      assert t[1..|x| + 1] == x;
      assert ParseItems(t) == Some([t[1..|x| + 1]]);
      assert [x] == xs;
    } else {
      var after := "," + JoinQuoted(xs[1..]);
      var t := JoinQuoted(xs);
      assert t == Quote(x) + after;
      ScanPlainStopsAtQuote(x, after);
      assert t[1..|x| + 1] == x;
      assert t[|x| + 3..] == JoinQuoted(xs[1..]);
      ParseJoinQuoted(xs[1..]);
      assert [x] + xs[1..] == xs;
    }
  }

  /** What `JSON.stringify` writes for a list of plain strings, the parser reads back. */
  lemma ParseOfJsonStringList(xs: seq<string>)
    requires forall i :: 0 <= i < |xs| ==> Plain(xs[i])
    ensures ParseStringList(JsonStringList(xs)) == Some(xs)
  {
    var s := JsonStringList(xs);
    if xs != [] {
      ParseJoinQuoted(xs);
      assert s[1..|s| - 1] == JoinQuoted(xs);
      assert |JoinQuoted(xs)| >= 2;
    }
  }

  // ---------------------------------------------------------------------
  // Loading and saving the settings

  /** `localStorage.getItem(key) || fallback`: a missing or empty entry reads as the fallback. */
  function TextOr(store: Store, key: string, fallback: string): string {
    if key in store && store[key] != "" then store[key] else fallback
  }

  /** `parseInt(localStorage.getItem(key)) || fallback`: NaN and 0 both read as the fallback. */
  function IntOr(store: Store, key: string, fallback: int): (v: int)
    ensures v == fallback || v != 0
  {
    if key !in store then fallback
    else match ParseInt(store[key])
      case None => fallback
      case Some(n) => if n == 0 then fallback else n
  }

  /** The settings the game starts with; None where `JSON.parse` of the stored
      operation list throws and the game cannot start. */
  function LoadSettings(store: Store): (r: Option<GameSettings>)
    ensures r.Some? ==> |r.value.enabledOperations| >= 1
  {
    match ParseStringList(TextOr(store, "enabledOperations", "[\"addition\"]"))
    case None => None
    case Some(ops) =>
      Some(GameSettings(
        IntOr(store, "minNumber", 1),
        IntOr(store, "maxNumber", 10),
        IntOr(store, "problemCount", 4),
        if |ops| > 0 then ops else ["addition"],
        IntOr(store, "variableCount", 2)))
  }

  /** The stored earned badge list; unreadable text reads as no badges. */
  function LoadEarned(store: Store): seq<string> {
    match ParseStringList(TextOr(store, "earnedBadges", "[]"))
    case None => []
    case Some(ids) => ids
  }

  function LoadName(store: Store): string {
    TextOr(store, "playerName", "")
  }

  /** An empty store (first visit, or after a reset) loads the defaults. */
  lemma EmptyStoreLoadsDefaults()
    ensures LoadSettings(map[]) == Some(DefaultSettings)
    ensures LoadEarned(map[]) == [] && LoadName(map[]) == ""
  {
    ParseOfJsonStringList(["addition"]);
    assert JsonStringList(["addition"]) == "[\"addition\"]";
    ParseOfJsonStringList([]);
    assert JsonStringList([]) == "[]";
  }

  /** The entries the save writes for the settings, in the settings' key order. */
  function SettingsEntries(s: GameSettings): seq<(string, string)> {
    [ ("minNumber", IntToString(s.minNumber)),
      ("maxNumber", IntToString(s.maxNumber)),
      ("problemCount", IntToString(s.problemCount)),
      ("enabledOperations", JsonStringList(s.enabledOperations)),
      ("variableCount", IntToString(s.variableCount)) ]
  }

  /** The store after `setItem` of each entry in turn (a later entry wins). */
  function WriteAll(store: Store, entries: seq<(string, string)>): Store
    decreases |entries|
  {
    if entries == [] then store
    else
      var last := entries[|entries| - 1];
      WriteAll(store, entries[..|entries| - 1])[last.0 := last.1]
  }

  /** Settings that come back unchanged through the store: no field is 0 (which reads
      back as the default), and the operation list is non-empty and needs no escaping. */
  predicate Storable(s: GameSettings) {
    && s.minNumber != 0 && s.maxNumber != 0 && s.problemCount != 0 && s.variableCount != 0
    && |s.enabledOperations| >= 1
    && forall i :: 0 <= i < |s.enabledOperations| ==> Plain(s.enabledOperations[i])
  }

  /** The store after a save of the name and the settings. */
  function SavedStore(store: Store, name: string, s: GameSettings): Store {
    WriteAll(store[("playerName") := name], SettingsEntries(s))
  }

  lemma WriteAllSnoc(store: Store, entries: seq<(string, string)>, e: (string, string))
    ensures WriteAll(store, entries + [e]) == WriteAll(store, entries)[e.0 := e.1]
  {
    assert (entries + [e])[..|entries|] == entries;
  }

  const SavedKeys: set<string> := {"playerName", "minNumber", "maxNumber", "problemCount", "enabledOperations", "variableCount"}

  /** Each key the save writes holds the text written for it. */
  lemma SavedStoreEntries(store: Store, name: string, s: GameSettings)
    ensures var st := SavedStore(store, name, s);
      && "playerName" in st && st["playerName"] == name
      && "minNumber" in st && st["minNumber"] == IntToString(s.minNumber)
      && "maxNumber" in st && st["maxNumber"] == IntToString(s.maxNumber)
      && "problemCount" in st && st["problemCount"] == IntToString(s.problemCount)
      && "enabledOperations" in st && st["enabledOperations"] == JsonStringList(s.enabledOperations)
      && "variableCount" in st && st["variableCount"] == IntToString(s.variableCount)
      && st.Keys == store.Keys + SavedKeys
      && forall k :: k in store && k !in SavedKeys ==> st[k] == store[k]
  {
    var es := SettingsEntries(s);
    var s0 := store[("playerName") := name];
    WriteAllSnoc(s0, [], es[0]);
    WriteAllSnoc(s0, es[..1], es[1]);
    WriteAllSnoc(s0, es[..2], es[2]);
    WriteAllSnoc(s0, es[..3], es[3]);
    WriteAllSnoc(s0, es[..4], es[4]);
    assert [] + [es[0]] == es[..1] && es[..1] + [es[1]] == es[..2] && es[..2] + [es[2]] == es[..3];
    assert es[..3] + [es[3]] == es[..4] && es[..4] + [es[4]] == es;
  }

  /** Saving then loading gives back the saved settings and name; the badge list is untouched. */
  lemma LoadAfterSave(store: Store, name: string, s: GameSettings)
    requires Storable(s)
    ensures LoadSettings(SavedStore(store, name, s)) == Some(s)
    ensures name != "" ==> LoadName(SavedStore(store, name, s)) == name
    ensures LoadEarned(SavedStore(store, name, s)) == LoadEarned(store)
  {
    var st := SavedStore(store, name, s);
    SavedStoreEntries(store, name, s);
    IntOrOfWritten(st, "minNumber", s.minNumber, 1);
    IntOrOfWritten(st, "maxNumber", s.maxNumber, 10);
    IntOrOfWritten(st, "problemCount", s.problemCount, 4);
    IntOrOfWritten(st, "variableCount", s.variableCount, 2);
    ParseOfJsonStringList(s.enabledOperations);
    assert TextOr(st, "enabledOperations", "[\"addition\"]") == JsonStringList(s.enabledOperations);
    assert "earnedBadges" !in SavedKeys;
    assert TextOr(st, "earnedBadges", "[]") == TextOr(store, "earnedBadges", "[]");
  }

  lemma IntOrOfWritten(st: Store, key: string, v: int, fallback: int)
    requires v != 0 && key in st && st[key] == IntToString(v)
    ensures IntOr(st, key, fallback) == v
  {
    ParseIntOfIntToString(v);
  }
}
