/**
 * The mover's target path: a folder pattern and a name pattern whose
 * `{key}` placeholders are replaced by the file's extension, the values of
 * the metatag selectors, the custom entries and, last, the keys computed by
 * the profile's evaluator module; doubled slashes are then collapsed. Also
 * the tags the mover applies and the configured defaults. The widgets are
 * inputs: each selector is given with the value it shows.
 */
module Mover {
  import opened Wrappers
  import opened Views
  import Text
  import Paths
  import Collections

  const DEFAULT_TARGET_NAME := "name"
  const DEFAULT_METATAGS := "metatags"
  const FILE_EXTENSION_KEY := "{_FileExtension}"

  // ---------------------------------------------------------------------------
  // Python dicts from strings to strings, in insertion order

  type Dict = seq<(string, string)>

  function Keys(d: Dict): (r: seq<string>)
    ensures |r| == |d| && forall i :: 0 <= i < |d| ==> r[i] == d[i].0
  {
    if d == [] then [] else [d[0].0] + Keys(d[1..])
  }

  /** `d.get(k)`. */
  function Lookup(d: Dict, k: string): (r: Option<string>)
    ensures r.Some? ==> exists i :: 0 <= i < |d| && d[i] == (k, r.value)
    ensures r.None? ==> forall i :: 0 <= i < |d| ==> d[i].0 != k
  {
    if d == [] then None else if d[0].0 == k then Some(d[0].1) else Lookup(d[1..], k)
  }

  /** `d[k] = v`: a present key keeps its place and takes the new value, a new key goes last. */
  function Put(d: Dict, k: string, v: string): (r: Dict)
    ensures Keys(r) == if k in Keys(d) then Keys(d) else Keys(d) + [k]
    ensures Lookup(r, k) == Some(v)
    ensures forall k' :: k' != k ==> Lookup(r, k') == Lookup(d, k')
  {
    if d == [] then [(k, v)]
    else if d[0].0 == k then [(k, v)] + d[1..]
    else
      var rest := Put(d[1..], k, v);
      PutBehindHead(d, k, v, rest);
      [d[0]] + rest
  }

  /** The recursive case of `Put`: the head pair stays in front of the updated tail. */
  lemma PutBehindHead(d: Dict, k: string, v: string, rest: Dict)
    requires d != [] && d[0].0 != k
    requires Keys(rest) == if k in Keys(d[1..]) then Keys(d[1..]) else Keys(d[1..]) + [k]
    requires Lookup(rest, k) == Some(v)
    requires forall k' :: k' != k ==> Lookup(rest, k') == Lookup(d[1..], k')
    ensures var r := [d[0]] + rest;
            && Keys(r) == (if k in Keys(d) then Keys(d) else Keys(d) + [k])
            && Lookup(r, k) == Some(v)
            && forall k' :: k' != k ==> Lookup(r, k') == Lookup(d, k')
  {
    var r := [d[0]] + rest;
    assert r[1..] == rest;
    assert Keys(d) == [d[0].0] + Keys(d[1..]);
    assert Keys(r) == [d[0].0] + Keys(rest);
  }

  /** The value the last pair with key `k` assigns, if any. */
  function Latest(e: Dict, k: string): (r: Option<string>)
    ensures r.Some? ==> exists i :: 0 <= i < |e| && e[i] == (k, r.value)
    ensures r.None? ==> forall i :: 0 <= i < |e| ==> e[i].0 != k
  {
    if e == [] then None
    else if e[|e| - 1].0 == k then Some(e[|e| - 1].1)
    else Latest(e[..|e| - 1], k)
  }

  /**
   * Assigning the pairs of `e` to `d` one after the other, as `d.update(e)`
   * and the builders' loops do: the last value a key is given wins, keys
   * already in `d` keep their place.
   */
  function UpdateWith(d: Dict, e: Dict): (r: Dict)
    ensures forall k :: Lookup(r, k) == if Latest(e, k).Some? then Latest(e, k) else Lookup(d, k)
    ensures Keys(d) <= Keys(r)
    ensures Collections.Distinct(Keys(d)) ==> Collections.Distinct(Keys(r))
    decreases |e|
  {
    if e == [] then d
    else
      var before := UpdateWith(d, e[..|e| - 1]);
      UpdateStep(d, e, before);
      Put(before, e[|e| - 1].0, e[|e| - 1].1)
  }

  /** The last step of `UpdateWith`: assigning the last pair of `e` to the dict built from the others. */
  lemma UpdateStep(d: Dict, e: Dict, before: Dict)
    requires e != []
    requires forall k :: Lookup(before, k) == if Latest(e[..|e| - 1], k).Some? then Latest(e[..|e| - 1], k) else Lookup(d, k)
    requires Keys(d) <= Keys(before)
    requires Collections.Distinct(Keys(d)) ==> Collections.Distinct(Keys(before))
    ensures var r := Put(before, e[|e| - 1].0, e[|e| - 1].1);
            && (forall k :: Lookup(r, k) == if Latest(e, k).Some? then Latest(e, k) else Lookup(d, k))
            && Keys(d) <= Keys(r)
            && (Collections.Distinct(Keys(d)) ==> Collections.Distinct(Keys(r)))
  {
    var n := |e| - 1;
    forall k ensures Lookup(Put(before, e[n].0, e[n].1), k) == if Latest(e, k).Some? then Latest(e, k) else Lookup(d, k) {
      UpdateStepAt(d, e, before, k);
    }
    PutKeys(d, before, e[n].0, e[n].1);
  }

  /** `UpdateStep` for one key. */
  lemma UpdateStepAt(d: Dict, e: Dict, before: Dict, k: string)
    requires e != []
    requires Lookup(before, k) == if Latest(e[..|e| - 1], k).Some? then Latest(e[..|e| - 1], k) else Lookup(d, k)
    ensures Lookup(Put(before, e[|e| - 1].0, e[|e| - 1].1), k) == if Latest(e, k).Some? then Latest(e, k) else Lookup(d, k)
  {
    var n := |e| - 1;
    if e[n].0 == k {
      assert Latest(e, k) == Some(e[n].1);
    } else {
      assert Latest(e, k) == Latest(e[..n], k);
    }
  }

  /** Putting a pair keeps the keys already there and keeps them distinct. */
  lemma PutKeys(d: Dict, before: Dict, k: string, v: string)
    requires Keys(d) <= Keys(before)
    requires Collections.Distinct(Keys(d)) ==> Collections.Distinct(Keys(before))
    ensures Keys(d) <= Keys(Put(before, k, v))
    ensures Collections.Distinct(Keys(d)) ==> Collections.Distinct(Keys(Put(before, k, v)))
  {
    assert Keys(before) <= Keys(Put(before, k, v));
    if Collections.Distinct(Keys(d)) && k !in Keys(before) {
      AppendFreshKey(Keys(before), k);
    }
  }

  /** Appending a key that is not there keeps the keys distinct. */
  lemma AppendFreshKey(keys: seq<string>, k: string)
    requires Collections.Distinct(keys) && k !in keys
    ensures Collections.Distinct(keys + [k])
  {
    var t := keys + [k];
    forall i, j | 0 <= i < j < |t| ensures t[i] != t[j] {
      assert t[i] == keys[i];
      if j < |keys| {
        assert t[j] == keys[j];
      }
    }
  }

  /** In a dict with distinct keys, the last and the first pair with a key are the same. */
  lemma LatestIsLookup(d: Dict, k: string)
    requires Collections.Distinct(Keys(d))
    ensures Latest(d, k) == Lookup(d, k)
  {
    var l, f := Latest(d, k), Lookup(d, k);
    if l.Some? {
      var i :| 0 <= i < |d| && d[i] == (k, l.value);
      assert Keys(d)[i] == k;
      var j :| 0 <= j < |d| && d[j] == (k, f.value);
      assert Keys(d)[j] == k;
      assert i == j;
    }
  }

  /** A dict built from pairs answers, for each key, the last value the pairs give it. */
  lemma BuiltLatest(pairs: Dict, k: string)
    ensures Latest(UpdateWith([], pairs), k) == Latest(pairs, k)
  {
    LatestIsLookup(UpdateWith([], pairs), k);
  }

  // ---------------------------------------------------------------------------
  // Placeholders

  /** The placeholder of a name: `"{" + name + "}"`. */
  function Key(name: string): string
  {
    "{" + name + "}"
  }

  predicate BraceFree(s: string)
  {
    forall i :: 0 <= i < |s| ==> s[i] != '{' && s[i] != '}'
  }

  /** A placeholder with a brace-free name. */
  predicate IsKey(k: string)
  {
    |k| >= 2 && k[0] == '{' && k[|k| - 1] == '}' && BraceFree(k[1..|k| - 1])
  }

  /** Every key is a placeholder and every value is brace-free. */
  predicate WellKeyed(d: Dict)
  {
    forall i :: 0 <= i < |d| ==> IsKey(d[i].0) && BraceFree(d[i].1)
  }

  lemma KeyIsKey(name: string)
    requires BraceFree(name)
    ensures IsKey(Key(name))
  {
    assert Key(name)[1..|Key(name)| - 1] == name;
  }

  lemma {:induction false} PutWellKeyed(d: Dict, k: string, v: string)
    requires WellKeyed(d) && IsKey(k) && BraceFree(v)
    ensures WellKeyed(Put(d, k, v))
  {
    if d != [] && d[0].0 != k {
      PutWellKeyed(d[1..], k, v);
    }
  }

  lemma {:induction false} UpdateWellKeyed(d: Dict, e: Dict)
    requires WellKeyed(d) && WellKeyed(e)
    ensures WellKeyed(UpdateWith(d, e))
    decreases |e|
  {
    if e != [] {
      UpdateWellKeyed(d, e[..|e| - 1]);
      PutWellKeyed(UpdateWith(d, e[..|e| - 1]), e[|e| - 1].0, e[|e| - 1].1);
    }
  }

  /** Each pair of the dict, in order: `pattern = pattern.replace(key, value)`. */
  function ReplaceAll(p: string, d: Dict): string
    decreases |d|
  {
    if d == [] then p else ReplaceAll(Text.Replace(p, d[0].0, d[0].1), d[1..])
  }

  /** Brace-free text contains no placeholder, so no replacement touches it. */
  lemma {:induction false} BraceFreeUntouched(s: string, d: Dict)
    requires BraceFree(s) && WellKeyed(d)
    ensures ReplaceAll(s, d) == s
  {
    if d != [] {
      var k := d[0].0;
      Text.ReplaceSkips(s, [], k, d[0].1);
      assert s + [] == s;
      BraceFreeUntouched(s, d[1..]);
    }
  }

  /** A placeholder is not a prefix of text that starts with a different placeholder. */
  lemma KeyMismatch(name: string, b: string, k: string)
    requires BraceFree(name) && IsKey(k) && k != Key(name)
    ensures |Key(name) + b| >= |k| ==> (Key(name) + b)[..|k|] != k
  {
    var t := Key(name) + b;
    var n := |Key(name)|;
    if |t| >= |k| {
      if |k| < n {
        assert t[..|k|][|k| - 1] == name[|k| - 2];
      } else if |k| > n {
        assert t[..|k|][n - 1] == '}';
        assert k[n - 1] == k[1..|k| - 1][n - 2];
      } else {
        assert t[..|k|] == Key(name);
      }
    }
  }

  /** One replacement on a text holding a single placeholder: the matching key replaces it, any other key changes nothing. */
  lemma ReplaceStep(a: string, name: string, b: string, k: string, v: string)
    requires BraceFree(a) && BraceFree(name) && BraceFree(b) && IsKey(k) && BraceFree(v)
    ensures k == Key(name) ==> Text.Replace(a + Key(name) + b, k, v) == a + v + b
    ensures k != Key(name) ==> Text.Replace(a + Key(name) + b, k, v) == a + Key(name) + b
  {
    Text.ReplaceSkips(b, [], k, v);
    assert b + [] == b;
    if k == Key(name) {
      Text.ReplaceFirstOccurrence(a, k, v, b);
    } else {
      var t := Key(name) + b;
      assert a + Key(name) + b == a + t;
      Text.ReplaceSkips(a, t, k, v);
      PlaceholderKept(name, b, k, v);
    }
  }

  /** A text that starts with a placeholder other than `k` is left as it is by replacing `k`. */
  lemma PlaceholderKept(name: string, b: string, k: string, v: string)
    requires BraceFree(name) && BraceFree(b) && IsKey(k) && k != Key(name)
    ensures Text.Replace(Key(name) + b, k, v) == Key(name) + b
  {
    var t := Key(name) + b;
    KeyMismatch(name, b, k);
    if |t| >= |k| {
      var u := t[1..];
      NoOpeningBrace(name, b);
      Text.ReplaceSkips(u, [], k, v);
      assert u + [] == u;
      assert t == [t[0]] + u;
    }
  }

  /** Past its opening brace, a placeholder followed by brace-free text holds no opening brace. */
  lemma NoOpeningBrace(name: string, b: string)
    requires BraceFree(name) && BraceFree(b)
    ensures forall i :: 1 <= i < |Key(name) + b| ==> (Key(name) + b)[i] != '{'
  {
    var t := Key(name) + b;
    forall i | 1 <= i < |t| ensures t[i] != '{' {
      if i <= |name| {
        assert t[i] == name[i - 1];
      } else if i > |name| + 1 {
        assert t[i] == b[i - |name| - 2];
      }
    }
  }

  /**
   * Every replacement applied to a text with one placeholder in brace-free
   * surroundings: the placeholder becomes the dict's value for it, or stays
   * as written when the dict has none.
   */
  lemma {:induction false} KeyReplaced(a: string, name: string, b: string, d: Dict)
    requires BraceFree(a) && BraceFree(name) && BraceFree(b) && WellKeyed(d)
    ensures ReplaceAll(a + Key(name) + b, d) == a + Lookup(d, Key(name)).GetOr(Key(name)) + b
    decreases |d|
  {
    if d != [] {
      ReplaceStep(a, name, b, d[0].0, d[0].1);
      if d[0].0 == Key(name) {
        assert BraceFree(a + d[0].1 + b);
        BraceFreeUntouched(a + d[0].1 + b, d[1..]);
      } else {
        KeyReplaced(a, name, b, d[1..]);
      }
    }
  }

  // ---------------------------------------------------------------------------
  // The replacements

  /** An evaluator of custom keys: `(key, path, target name, replacements) -> value`. */
  type Evaluator = (string, string, string, Dict) -> string

  /**
   * What the mover's widgets and controller hold: the source path, each
   * metatag selector with its value, each custom entry with its value, the
   * custom target keys and their evaluator (None when not configured), and
   * the destination name.
   */
  datatype Selections = Selections(
    path: string,
    metatagValues: seq<(MetatagView, string)>,
    customValues: seq<(string, string)>,
    customKeys: Option<seq<string>>,
    evaluator: Option<Evaluator>,
    targetName: string)

  /** `_getPatternBasicReplace`: the extension of the source path under `{_FileExtension}`. */
  function BasicReplace(path: string): (r: Dict)
    ensures Keys(r) == [FILE_EXTENSION_KEY]
    ensures Lookup(r, FILE_EXTENSION_KEY) == Some(Paths.SplitExt(path).1)
  {
    [(FILE_EXTENSION_KEY, Paths.SplitExt(path).1)]
  }

  /** The assignments `_getPatternMetatagsReplace` makes: `{<metatag name>}` to the selector's value. */
  function MetatagPairs(values: seq<(MetatagView, string)>): (r: Dict)
    ensures |r| == |values|
    ensures forall i :: 0 <= i < |values| ==> r[i] == (Key(values[i].0.name), values[i].1)
  {
    seq(|values|, i requires 0 <= i < |values| => (Key(values[i].0.name), values[i].1))
  }

  /** The assignments `_getPatternCustomEntriesReplace` makes: `{<entry name>}` to the entry's value. */
  function CustomPairs(values: seq<(string, string)>): (r: Dict)
    ensures |r| == |values|
    ensures forall i :: 0 <= i < |values| ==> r[i] == (Key(values[i].0), values[i].1)
  {
    seq(|values|, i requires 0 <= i < |values| => (Key(values[i].0), values[i].1))
  }

  /** The builders' loop: a fresh dict, each pair assigned in turn. */
  method BuildReplacements(pairs: Dict) returns (r: Dict)
    ensures r == UpdateWith([], pairs)
  {
    r := [];
    var i := 0;
    while i < |pairs|
      invariant 0 <= i <= |pairs|
      invariant r == UpdateWith([], pairs[..i])
    {
      assert pairs[..i + 1][..i] == pairs[..i];
      r := Put(r, pairs[i].0, pairs[i].1);
      i := i + 1;
    }
    assert pairs[..i] == pairs;
  }

  /** `replacements`, `update(metatags)`, `update(custom entries)`. */
  function Merged(s: Selections): Dict
  {
    var metatags := UpdateWith([], MetatagPairs(s.metatagValues));
    var custom := UpdateWith([], CustomPairs(s.customValues));
    UpdateWith(UpdateWith(BasicReplace(s.path), metatags), custom)
  }

  /** Later maps win: a custom entry over a metatag, a metatag over the extension. */
  lemma MergedPrecedence(s: Selections, k: string)
    ensures var custom := Latest(CustomPairs(s.customValues), k);
            var metatag := Latest(MetatagPairs(s.metatagValues), k);
            Lookup(Merged(s), k) ==
              if custom.Some? then custom
              else if metatag.Some? then metatag
              else Lookup(BasicReplace(s.path), k)
  {
    BuiltLatest(MetatagPairs(s.metatagValues), k);
    BuiltLatest(CustomPairs(s.customValues), k);
  }

  /** The assignments `_getPatternAdvancedReplace` makes: `{<key>}` to the evaluator's value for it. */
  function AdvancedPairs(keys: seq<string>, evaluator: Evaluator, path: string, targetName: string, replacements: Dict): (r: Dict)
    ensures |r| == |keys|
    ensures forall i :: 0 <= i < |keys| ==> r[i] == (Key(keys[i]), evaluator(keys[i], path, targetName, replacements))
  {
    seq(|keys|, i requires 0 <= i < |keys| => (Key(keys[i]), evaluator(keys[i], path, targetName, replacements)))
  }

  /** `_getPatternAdvancedReplace(replacements)`: empty unless both the keys and their evaluator are configured. */
  function AdvancedReplace(s: Selections, replacements: Dict): (r: Dict)
    ensures s.customKeys.None? || s.evaluator.None? ==> r == []
  {
    if s.customKeys.None? || s.evaluator.None? then []
    else UpdateWith([], AdvancedPairs(s.customKeys.value, s.evaluator.value, s.path, s.targetName, replacements))
  }

  method AdvancedReplacements(s: Selections, replacements: Dict) returns (r: Dict)
    ensures r == AdvancedReplace(s, replacements)
  {
    if s.customKeys.None? || s.evaluator.None? {
      return [];
    }
    r := BuildReplacements(AdvancedPairs(s.customKeys.value, s.evaluator.value, s.path, s.targetName, replacements));
  }

  /** The replacement loop of `_evaluatePattern`. */
  method ApplyReplacements(p: string, d: Dict) returns (r: string)
    ensures r == ReplaceAll(p, d)
  {
    r := p;
    var i := 0;
    while i < |d|
      invariant 0 <= i <= |d|
      invariant ReplaceAll(r, d[i..]) == ReplaceAll(p, d)
    {
      assert d[i..][1..] == d[i + 1..];
      r := Text.Replace(r, d[i].0, d[i].1);
      i := i + 1;
    }
  }

  /**
   * `_evaluatePattern(pattern)`: '/' without a pattern; otherwise the merged
   * replacements, then the advanced ones, then '//' collapsed to '/' in one
   * pass.
   */
  function EvaluatePattern(pattern: Option<string>, s: Selections): (r: string)
    ensures pattern.None? ==> r == "/"
  {
    if pattern.None? then "/"
    else
      var merged := Merged(s);
      Text.Replace(ReplaceAll(ReplaceAll(pattern.value, merged), AdvancedReplace(s, merged)), "//", "/")
  }

  method Evaluate(pattern: Option<string>, s: Selections) returns (r: string)
    ensures r == EvaluatePattern(pattern, s)
  {
    if pattern.None? {
      return "/";
    }
    var replacements := BasicReplace(s.path);
    var metatags := BuildReplacements(MetatagPairs(s.metatagValues));
    replacements := UpdateWith(replacements, metatags);
    var custom := BuildReplacements(CustomPairs(s.customValues));
    replacements := UpdateWith(replacements, custom);
    var advanced := AdvancedReplacements(s, replacements);
    var p := ApplyReplacements(pattern.value, replacements);
    p := ApplyReplacements(p, advanced);
    r := Text.Replace(p, "//", "/");
  }

  /** Selections whose names and values contain no braces, so no value can form a placeholder. */
  ghost predicate BraceFreeSelections(s: Selections)
  {
    && BraceFree(Paths.SplitExt(s.path).1)
    && (forall i :: 0 <= i < |s.metatagValues| ==> BraceFree(s.metatagValues[i].0.name) && BraceFree(s.metatagValues[i].1))
    && (forall i :: 0 <= i < |s.customValues| ==> BraceFree(s.customValues[i].0) && BraceFree(s.customValues[i].1))
    && (s.customKeys.Some? && s.evaluator.Some? ==>
          forall i :: 0 <= i < |s.customKeys.value| ==>
            BraceFree(s.customKeys.value[i]))
    && (s.evaluator.Some? ==> forall key, path, name, d :: BraceFree(s.evaluator.value(key, path, name, d)))
  }

  lemma BasicWellKeyed(path: string)
    requires BraceFree(Paths.SplitExt(path).1)
    ensures WellKeyed(BasicReplace(path))
  {
    assert FILE_EXTENSION_KEY == Key("_FileExtension");
    KeyIsKey("_FileExtension");
  }

  lemma PairsWellKeyed(names: seq<string>, values: seq<string>, pairs: Dict)
    requires |names| == |values| == |pairs|
    requires forall i :: 0 <= i < |pairs| ==> pairs[i] == (Key(names[i]), values[i])
    requires forall i :: 0 <= i < |pairs| ==> BraceFree(names[i]) && BraceFree(values[i])
    ensures WellKeyed(UpdateWith([], pairs))
  {
    forall i | 0 <= i < |pairs| ensures IsKey(pairs[i].0) && BraceFree(pairs[i].1) {
      KeyIsKey(names[i]);
    }
    UpdateWellKeyed([], pairs);
  }

  lemma MergedWellKeyed(s: Selections)
    requires BraceFreeSelections(s)
    ensures WellKeyed(Merged(s))
  {
    var metatags := UpdateWith([], MetatagPairs(s.metatagValues));
    var custom := UpdateWith([], CustomPairs(s.customValues));
    BasicWellKeyed(s.path);
    MetatagPairsWellKeyed(s.metatagValues);
    CustomPairsWellKeyed(s.customValues);
    UpdateWellKeyed(BasicReplace(s.path), metatags);
    var mid := UpdateWith(BasicReplace(s.path), metatags);
    UpdateWellKeyed(mid, custom);
    assert Merged(s) == UpdateWith(mid, custom);
  }

  lemma MetatagPairsWellKeyed(mv: seq<(MetatagView, string)>)
    requires forall i :: 0 <= i < |mv| ==> BraceFree(mv[i].0.name) && BraceFree(mv[i].1)
    ensures WellKeyed(UpdateWith([], MetatagPairs(mv)))
  {
    PairsWellKeyed(seq(|mv|, i requires 0 <= i < |mv| => mv[i].0.name), seq(|mv|, i requires 0 <= i < |mv| => mv[i].1), MetatagPairs(mv));
  }

  lemma CustomPairsWellKeyed(cv: seq<(string, string)>)
    requires forall i :: 0 <= i < |cv| ==> BraceFree(cv[i].0) && BraceFree(cv[i].1)
    ensures WellKeyed(UpdateWith([], CustomPairs(cv)))
  {
    PairsWellKeyed(seq(|cv|, i requires 0 <= i < |cv| => cv[i].0), seq(|cv|, i requires 0 <= i < |cv| => cv[i].1), CustomPairs(cv));
  }

  lemma AdvancedWellKeyed(s: Selections, replacements: Dict)
    requires BraceFreeSelections(s)
    ensures WellKeyed(AdvancedReplace(s, replacements))
  {
    if s.customKeys.Some? && s.evaluator.Some? {
      var keys := s.customKeys.value;
      var ev := s.evaluator.value;
      PairsWellKeyed(keys, seq(|keys|, i requires 0 <= i < |keys| => ev(keys[i], s.path, s.targetName, replacements)),
        AdvancedPairs(keys, ev, s.path, s.targetName, replacements));
    }
  }

  /**
   * A pattern with one placeholder: it is replaced by the merged value for
   * it, else by the advanced value, else kept; the rest of the pattern is
   * kept, and doubled slashes are collapsed last.
   */
  lemma BraceFreeJoin(a: string, v: string, b: string)
    requires BraceFree(a) && BraceFree(v) && BraceFree(b)
    ensures BraceFree(a + v + b)
  {
  }

  /** The text a single placeholder becomes: the merged value, else the advanced value, else the placeholder. */
  function KeyValue(s: Selections, name: string): string
  {
    var merged := Merged(s);
    if Lookup(merged, Key(name)).Some? then Lookup(merged, Key(name)).value
    else Lookup(AdvancedReplace(s, merged), Key(name)).GetOr(Key(name))
  }

  lemma EvaluateOneKey(a: string, name: string, b: string, s: Selections)
    requires BraceFree(a) && BraceFree(name) && BraceFree(b) && BraceFreeSelections(s)
    ensures EvaluatePattern(Some(a + Key(name) + b), s) == Text.Replace(a + KeyValue(s, name) + b, "//", "/")
  {
    var merged := Merged(s);
    var advanced := AdvancedReplace(s, merged);
    var p := a + Key(name) + b;
    var mid := ReplaceAll(p, merged);
    assert EvaluatePattern(Some(p), s) == Text.Replace(ReplaceAll(mid, advanced), "//", "/");
    MergedWellKeyed(s);
    AdvancedWellKeyed(s, merged);
    KeyReplaced(a, name, b, merged);
    var found := Lookup(merged, Key(name));
    if found.Some? {
      assert mid == a + found.value + b;
      BraceFreeJoin(a, found.value, b);
      BraceFreeUntouched(mid, advanced);
    } else {
      assert mid == p;
      KeyReplaced(a, name, b, advanced);
    }
  }

  /** A pattern without braces is only collapsed. */
  lemma PlainPattern(p: string, s: Selections)
    requires BraceFree(p) && BraceFreeSelections(s)
    ensures EvaluatePattern(Some(p), s) == Text.Replace(p, "//", "/")
  {
    MergedWellKeyed(s);
    AdvancedWellKeyed(s, Merged(s));
    BraceFreeUntouched(p, Merged(s));
    BraceFreeUntouched(p, AdvancedReplace(s, Merged(s)));
  }

  // ---------------------------------------------------------------------------
  // Target folder, tags and defaults

  /** `_evaluateTargetFolderPattern`: at most one leading '/' removed, a trailing '/' ensured. */
  function TargetFolder(evaluated: string): (r: string)
    ensures r != [] && r[|r| - 1] == '/'
    ensures var stripped := if evaluated != [] && evaluated[0] == '/' then evaluated[1..] else evaluated;
            stripped <= r && |r| <= |stripped| + 1
  {
    var stripped := if evaluated != [] && evaluated[0] == '/' then evaluated[1..] else evaluated;
    if stripped != [] && stripped[|stripped| - 1] == '/' then stripped else stripped + "/"
  }

  /** Without a folder pattern the target folder is "/". */
  lemma NoFolderPattern(s: Selections)
    ensures TargetFolder(EvaluatePattern(None, s)) == "/"
  {
    assert "/"[1..] == [];
  }

  /** `_getFileTags`'s result: (value, metatag) for each selector whose value is non-empty, in order. */
  function FileTagsOf(values: seq<(MetatagView, string)>): (r: seq<(string, MetatagView)>)
    ensures |r| <= |values|
    ensures forall i :: 0 <= i < |r| ==> r[i].0 != [] && (r[i].1, r[i].0) in values
    ensures forall i :: 0 <= i < |values| && values[i].1 != [] ==> (values[i].1, values[i].0) in r
  {
    if values == [] then []
    else
      var last := values[|values| - 1];
      var prefix := FileTagsOf(values[..|values| - 1]);
      assert forall x :: x in values[..|values| - 1] ==> x in values;
      prefix + if last.1 != [] then [(last.1, last.0)] else []
  }

  /** `_getFileTags` keeps the selectors' order: the tags of a concatenation are the concatenation of the tags. */
  lemma {:induction false} FileTagsOfAppend(a: seq<(MetatagView, string)>, b: seq<(MetatagView, string)>)
    ensures FileTagsOf(a + b) == FileTagsOf(a) + FileTagsOf(b)
    decreases |b|
  {
    if b == [] {
      assert a + b == a;
    } else {
      var ab, init := a + b, b[..|b| - 1];
      FileTagsOfAppend(a, init);
      assert ab[..|ab| - 1] == a + init && ab[|ab| - 1] == b[|b| - 1];
      FileTagsOfLast(ab);
      FileTagsOfLast(b);
    }
  }

  /** `FileTagsOf` unfolded once, from the end. */
  lemma FileTagsOfLast(values: seq<(MetatagView, string)>)
    requires values != []
    ensures var last := values[|values| - 1];
            FileTagsOf(values) == FileTagsOf(values[..|values| - 1]) + if last.1 != [] then [(last.1, last.0)] else []
  {
  }

  method FileTags(values: seq<(MetatagView, string)>) returns (tags: seq<(string, MetatagView)>)
    ensures tags == FileTagsOf(values)
  {
    tags := [];
    var i := 0;
    while i < |values|
      invariant 0 <= i <= |values|
      invariant tags == FileTagsOf(values[..i])
    {
      assert values[..i + 1][..i] == values[..i];
      var name := values[i].1;
      if |name| > 0 {
        tags := tags + [(name, values[i].0)];
      }
      i := i + 1;
    }
    assert values[..i] == values;
  }

  /** The profile's default-values module: an optional target name and optional metatag defaults. */
  datatype DefaultValues = DefaultValues(name: Option<string>, metatags: Option<map<string, string>>)

  /** `_getMetatagDefaultValue(metatag)`: the configured default for the metatag's name, if any. */
  function MetatagDefaultValue(defaults: Option<DefaultValues>, metatag: MetatagView): (r: Option<string>)
    ensures r.Some? <==> defaults.Some? && defaults.value.metatags.Some? && metatag.name in defaults.value.metatags.value
    ensures r.Some? ==> r.value == defaults.value.metatags.value[metatag.name]
  {
    if defaults.Some? && defaults.value.metatags.Some? && metatag.name in defaults.value.metatags.value then
      Some(defaults.value.metatags.value[metatag.name])
    else None
  }

  /** `_setDefaultTargetName(name)`: the name shown, a configured default winning over the given one. */
  function DefaultTargetName(defaults: Option<DefaultValues>, name: string): (r: string)
    ensures defaults.Some? && defaults.value.name.Some? ==> r == defaults.value.name.value
    ensures !(defaults.Some? && defaults.value.name.Some?) ==> r == name
  {
    if defaults.Some? && defaults.value.name.Some? then defaults.value.name.value else name
  }
}
