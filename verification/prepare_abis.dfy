/** The ABI clean-up step of prepare-abis.js: find the first ABI entry with a multidimensional
    array type among its inputs or outputs, and drop every entry that shares its name. */
module PrepareAbis {
  import opened GraphValues

  /** The length of the run of decimal digits starting at `t[i]`. */
  function DigitRun(t: string, i: nat): (n: nat)
    requires i <= |t|
    ensures i + n <= |t|
    ensures forall k :: i <= k < i + n ==> IsDigit(t[k])
    ensures i + n == |t| || !IsDigit(t[i + n])
    decreases |t| - i
  {
    if i < |t| && IsDigit(t[i]) then 1 + DigitRun(t, i + 1) else 0
  }

  /** Matches `[` digits* `]` at `t[i]`; on success gives the position just after the `]`. */
  function BracketAt(t: string, i: nat): (r: Option<nat>)
    requires i <= |t|
    ensures r.Some? ==> i < r.value <= |t|
  {
    if i < |t| && t[i] == '[' then
      var j := i + 1 + DigitRun(t, i + 1);
      if j < |t| && t[j] == ']' then Some(j + 1) else None
    else None
  }

  /** The pattern `\[[0-9]*\]\[[0-9]*\]` matches starting at `t[i]`. */
  predicate MatchesAt(t: string, i: nat)
    requires i <= |t|
  {
    var first := BracketAt(t, i);
    first.Some? && BracketAt(t, first.value).Some?
  }

  /** The pattern matches at some position `p` with `i <= p`. */
  predicate ScanFrom(t: string, i: nat)
    requires i <= |t|
    decreases |t| - i
  {
    i < |t| && (MatchesAt(t, i) || ScanFrom(t, i + 1))
  }

  /** `doesEntryHaveMultidimensionalArrays`: the type mentions an array of arrays, such as
      `uint256[][]` or `address[2][3]`. */
  predicate HasMultidimensionalArray(typ: string)
  {
    ScanFrom(typ, 0)
  }

  /** `t[i]` opens a bracket pair `[` digits* `]` whose `]` is at `t[j]`. */
  ghost predicate BracketPair(t: string, i: int, j: int)
  {
    0 <= i < j < |t| && t[i] == '[' && t[j] == ']' &&
    forall k :: i < k < j ==> IsDigit(t[k])
  }

  /** Two adjacent bracket pairs: `[` at `i`, `]` at `j`, `[` at `j + 1`, `]` at `k`. */
  ghost predicate PatternAt(t: string, i: int, j: int, k: int)
  {
    BracketPair(t, i, j) && BracketPair(t, j + 1, k)
  }

  /** `t` contains the pattern somewhere. */
  ghost predicate ContainsPattern(t: string)
  {
    exists i, j, k :: PatternAt(t, i, j, k)
  }

  lemma BracketAtIsPair(t: string, i: nat, j: nat)
    requires i <= |t|
    ensures BracketAt(t, i) == Some(j + 1) <==> BracketPair(t, i, j)
  {
  }

  /** A match at `p` is found by a scan from any `i <= p`. */
  lemma {:induction false} ScanFromComplete(t: string, i: nat, p: nat)
    requires i <= p < |t| && MatchesAt(t, p)
    ensures ScanFrom(t, i)
    decreases p - i
  {
    if i < p {
      ScanFromComplete(t, i + 1, p);
    }
  }

  /** A successful scan from `i` stops at a match at or after `i`. */
  lemma {:induction false} ScanFromSound(t: string, i: nat) returns (p: nat)
    requires i <= |t| && ScanFrom(t, i)
    ensures i <= p < |t| && MatchesAt(t, p)
    decreases |t| - i
  {
    if MatchesAt(t, i) {
      p := i;
    } else {
      p := ScanFromSound(t, i + 1);
    }
  }

  lemma ScanFromFinds(t: string, i: nat)
    requires i <= |t|
    ensures ScanFrom(t, i) <==> exists p :: i <= p < |t| && MatchesAt(t, p)
  {
    if ScanFrom(t, i) {
      var p := ScanFromSound(t, i);
    }
    if exists p :: i <= p < |t| && MatchesAt(t, p) {
      var p :| i <= p < |t| && MatchesAt(t, p);
      ScanFromComplete(t, i, p);
    }
  }

  lemma MatchesAtIsPattern(t: string, p: nat)
    requires p <= |t|
    ensures MatchesAt(t, p) <==> exists j, k :: PatternAt(t, p, j, k)
  {
    if MatchesAt(t, p) {
      var j := BracketAt(t, p).value - 1;
      var k := BracketAt(t, j + 1).value - 1;
      BracketAtIsPair(t, p, j);
      BracketAtIsPair(t, j + 1, k);
      assert PatternAt(t, p, j, k);
    }
    if exists j, k :: PatternAt(t, p, j, k) {
      var j, k :| PatternAt(t, p, j, k);
      BracketAtIsPair(t, p, j);
      BracketAtIsPair(t, j + 1, k);
    }
  }

  /** The scanner agrees with the pattern's meaning, in both directions. */
  lemma HasMultidimensionalArrayIsPattern(typ: string)
    ensures HasMultidimensionalArray(typ) <==> ContainsPattern(typ)
  {
    ScanFromFinds(typ, 0);
    if HasMultidimensionalArray(typ) {
      var p :| 0 <= p < |typ| && MatchesAt(typ, p);
      MatchesAtIsPattern(typ, p);
    }
    if ContainsPattern(typ) {
      var i, j, k :| PatternAt(typ, i, j, k);
      MatchesAtIsPattern(typ, i);
    }
  }

  /** One ABI parameter; only its type matters here. */
  datatype Param = Param(typ: string)

  /** One ABI entry: optional name, optional input and output lists. */
  datatype Entry = Entry(name: Option<string>, inputs: Option<seq<Param>>, outputs: Option<seq<Param>>)

  /** A missing list counts as empty (`inputs = []`, `outputs = []`). */
  function ParamsOf(ps: Option<seq<Param>>): seq<Param>
  {
    if ps.Some? then ps.value else []
  }

  /** `params.find(doesEntryHaveMultidimensionalArrays)`: the first offending parameter. */
  function FindParam(ps: seq<Param>): (r: Option<Param>)
    ensures r.Some? ==> r.value in ps && HasMultidimensionalArray(r.value.typ)
    ensures r.None? ==> forall k :: 0 <= k < |ps| ==> !HasMultidimensionalArray(ps[k].typ)
  {
    if ps == [] then None
    else if HasMultidimensionalArray(ps[0].typ) then Some(ps[0])
    else FindParam(ps[1..])
  }

  /** An entry offends when one of its inputs or outputs has a multidimensional array type. */
  predicate Offends(e: Entry)
  {
    FindParam(ParamsOf(e.inputs)).Some? || FindParam(ParamsOf(e.outputs)).Some?
  }

  /** `abi.find(...)`, as the index of the first offending entry; `|abi|` when there is none. */
  function FindOffender(abi: seq<Entry>): (r: nat)
    ensures r <= |abi|
    ensures r < |abi| ==> Offends(abi[r])
    ensures forall j :: 0 <= j < r ==> !Offends(abi[j])
  {
    if abi == [] then 0
    else if Offends(abi[0]) then 0
    else FindOffender(abi[1..]) + 1
  }

  /** `const { name } = abi.find(...) || {}`: the first offender's name, if any. */
  function OffenderName(abi: seq<Entry>): Option<string>
  {
    var found := FindOffender(abi);
    if found < |abi| then abi[found].name else None
  }

  /** `abi.filter((entry) => entry.name !== name)`. */
  function KeepEntries(abi: seq<Entry>, name: string): (out: seq<Entry>)
    ensures |out| <= |abi|
    ensures forall e :: e in out ==> e in abi && e.name != Some(name)
  {
    if abi == [] then []
    else if abi[0].name != Some(name) then [abi[0]] + KeepEntries(abi[1..], name)
    else KeepEntries(abi[1..], name)
  }

  /** The ABI after the stripping step: unchanged unless the first offender has a non-empty
      name, in which case every entry of that name is dropped. */
  function StripMultidimensional(abi: seq<Entry>): seq<Entry>
  {
    var name := OffenderName(abi);
    if name.Some? && name.value != "" then KeepEntries(abi, name.value) else abi
  }

  /** `xs` is `ys` with some elements left out, in order. */
  ghost predicate IsSubsequence<T>(xs: seq<T>, ys: seq<T>)
    decreases |ys|
  {
    if ys == [] then xs == []
    else (xs != [] && xs[0] == ys[0] && IsSubsequence(xs[1..], ys[1..])) || IsSubsequence(xs, ys[1..])
  }

  /** The filter keeps exactly the entries of other names, each as often as before, in their
      original order. */
  lemma {:induction false} KeepEntriesSpec(abi: seq<Entry>, name: string)
    ensures IsSubsequence(KeepEntries(abi, name), abi)
    ensures forall e :: e in abi && e.name != Some(name) ==> e in KeepEntries(abi, name)
    ensures forall e: Entry :: e.name != Some(name) ==> multiset(KeepEntries(abi, name))[e] == multiset(abi)[e]
    ensures forall e: Entry :: e.name == Some(name) ==> multiset(KeepEntries(abi, name))[e] == 0
  {
    if abi != [] {
      KeepEntriesSpec(abi[1..], name);
      var rest := KeepEntries(abi[1..], name);
      assert abi == [abi[0]] + abi[1..];
      if abi[0].name != Some(name) {
        var out := [abi[0]] + rest;
        assert out[0] == abi[0] && out[1..] == rest;
      }
    }
  }

  /** With no offending entry, the ABI is written back unchanged. */
  lemma NoOffenderUnchanged(abi: seq<Entry>)
    requires forall j :: 0 <= j < |abi| ==> !Offends(abi[j])
    ensures StripMultidimensional(abi) == abi
  {
    assert FindOffender(abi) == |abi|;
  }

  /** With a named first offender, every entry of that name is gone and every other entry is
      kept, once per occurrence and in order. A nameless first offender strips nothing. */
  lemma StripByName(abi: seq<Entry>, f: nat)
    requires f < |abi| && FindOffender(abi) == f
    ensures abi[f].name.None? || abi[f].name == Some("") ==> StripMultidimensional(abi) == abi
    ensures abi[f].name.Some? && abi[f].name != Some("") ==>
      var out := StripMultidimensional(abi);
      IsSubsequence(out, abi) &&
      (forall e :: e in out ==> e.name != abi[f].name) &&
      (forall e: Entry :: e.name != abi[f].name ==> multiset(out)[e] == multiset(abi)[e])
  {
    if abi[f].name.Some? && abi[f].name != Some("") {
      KeepEntriesSpec(abi, abi[f].name.value);
    }
  }

  /** Only the first offender's name is stripped: a later offending entry under another name
      survives, so the output can still hold a multidimensional array. */
  lemma LaterOffenderSurvives(abi: seq<Entry>, f: nat, i: nat)
    requires f < |abi| && FindOffender(abi) == f
    requires f < i < |abi| && Offends(abi[i]) && abi[i].name != abi[f].name
    ensures abi[i] in StripMultidimensional(abi) && Offends(abi[i])
  {
    if abi[f].name.Some? && abi[f].name != Some("") {
      KeepEntriesSpec(abi, abi[f].name.value);
    }
  }
}
