/** Object names: the 20-character `sanitizeName` of the editor, the 15-character
    one of the older single-file renderer, and the per-base counters that make a
    name unique among the registered objects (`_generateUniqueName` and the
    commit step of an inline rename). */
module Names {
  import opened Wrappers
  import opened Text

  const MaxNameLength: nat := 20
  const LegacyMaxNameLength: nat := 15
  const DefaultName: string := "Object"

  /** `(name || 'Object')`: an absent or empty name falls back to "Object". */
  function Defaulted(name: Option<string>): (s: string)
    ensures |s| > 0
    ensures name.Some? && name.value != "" ==> s == name.value
  {
    match name
    case Some(v) => if v == "" then DefaultName else v
    case None => DefaultName
  }

  /** The part of `s` before its last '.', or `s` itself when the last '.' is at
      index 0 or there is none (`s.substring(0, s.lastIndexOf('.')) || s`). */
  function StripExtension(s: string): (r: string)
    ensures r <= s
    ensures |s| > 0 ==> |r| > 0
    ensures var k := LastIndexOf(s, '.'); if k > 0 then r == s[..k] else r == s
  {
    var k := LastIndexOf(s, '.');
    if k > 0 then s[..k] else s
  }

  function Truncate(s: string, n: nat): (r: string)
    ensures r <= s && |r| <= n
    ensures |s| <= n ==> r == s
    ensures |s| > n ==> |r| == n
  {
    if |s| > n then s[..n] else s
  }

  /** `sanitizeName` of the editor's helpers. */
  function SanitizeName(name: Option<string>): (r: string)
    ensures 0 < |r| <= MaxNameLength
    ensures r <= Defaulted(name)
  {
    Truncate(StripExtension(Defaulted(name)), MaxNameLength)
  }

  /** An absent or empty name is named "Object". */
  lemma SanitizeNameDefault(name: Option<string>)
    requires name.None? || name == Some("")
    ensures SanitizeName(name) == DefaultName
  {
  }

  /** The last '.' of `stem + "." + ext`, with `ext` free of dots, sits right after
      the stem. */
  lemma LastDotOfSplit(stem: string, ext: string)
    requires forall i :: 0 <= i < |ext| ==> ext[i] != '.'
    ensures LastIndexOf(stem + "." + ext, '.') == |stem|
  {
    var s := stem + "." + ext;
    var k := LastIndexOf(s, '.');
    assert s[|stem|] == '.';
  }

  /** A file name `stem.ext` is named by its stem (cut to 20 characters): only the
      part after the last dot is dropped, so dots inside the stem survive. */
  lemma SanitizeNameDropsExtension(stem: string, ext: string)
    requires |stem| > 0
    requires forall i :: 0 <= i < |ext| ==> ext[i] != '.'
    ensures SanitizeName(Some(stem + "." + ext)) == Truncate(stem, MaxNameLength)
  {
    var s := stem + "." + ext;
    LastDotOfSplit(stem, ext);
    assert s[..|stem|] == stem;
  }

  /** A name whose only dot is its first character (".env") is not an extension and
      is kept, as is a name without dots; both are only cut to 20 characters. */
  lemma SanitizeNameKeepsDotless(s: string)
    requires |s| > 0
    requires forall i :: 0 < i < |s| ==> s[i] != '.'
    ensures SanitizeName(Some(s)) == Truncate(s, MaxNameLength)
  {
    assert LastIndexOf(s, '.') <= 0;
  }

  /** A dot-free name of at most 20 characters is its own sanitised form, so sanitising
      such a name twice changes nothing. */
  lemma {:induction false} SanitizeNameFixpoint(s: string)
    requires 0 < |s| <= MaxNameLength
    requires forall i :: 0 <= i < |s| ==> s[i] != '.'
    ensures SanitizeName(Some(s)) == s
    ensures SanitizeName(Some(SanitizeName(Some(s)))) == SanitizeName(Some(s))
  {
    assert LastIndexOf(s, '.') == -1;
  }

  /** `sanitizeName` of the older renderer: default "Object", first 15 characters, no
      extension stripping. */
  function LegacySanitizeName(name: Option<string>): (r: string)
    ensures 0 < |r| <= LegacyMaxNameLength
    ensures r <= Defaulted(name)
    ensures |Defaulted(name)| <= LegacyMaxNameLength ==> r == Defaulted(name)
  {
    Truncate(Defaulted(name), LegacyMaxNameLength)
  }

  /** For any short file name `stem.ext` the older sanitiser keeps the extension
      the newer one strips. */
  lemma LegacyKeepsExtension(stem: string, ext: string)
    requires |stem| > 0 && |stem| + 1 + |ext| <= LegacyMaxNameLength
    requires forall i :: 0 <= i < |ext| ==> ext[i] != '.'
    ensures LegacySanitizeName(Some(stem + "." + ext)) == stem + "." + ext
    ensures SanitizeName(Some(stem + "." + ext)) == stem
  {
    SanitizeNameDropsExtension(stem, ext);
  }

  // ---------------------------------------------------------------------------
  // Unique names.

  /** The candidate `${base}_${i}`. */
  function Suffixed(base: string, i: nat): string
  {
    base + "_" + NatToString(i)
  }

  lemma SuffixedInjective(base: string, i: nat, j: nat)
    ensures Suffixed(base, i) == Suffixed(base, j) ==> i == j
  {
    if Suffixed(base, i) == Suffixed(base, j) {
      var n := |base| + 1;
      assert Suffixed(base, i)[n..] == NatToString(i);
      assert Suffixed(base, j)[n..] == NatToString(j);
      NatToStringInjective(i, j);
    }
  }

  /** If the candidates for every index in [start, i) are in use, there are at least
      i - start names in use: the search below cannot run past |inUse| steps. */
  lemma {:induction false} CandidatesBound(base: string, inUse: set<string>, start: nat, i: nat)
    requires start <= i
    requires forall j :: start <= j < i ==> Suffixed(base, j) in inUse
    ensures i - start <= |inUse|
    decreases i
  {
    if i > start {
      var last := Suffixed(base, i - 1);
      var rest := inUse - {last};
      forall j | start <= j < i - 1
        ensures Suffixed(base, j) in rest
      {
        SuffixedInjective(base, j, i - 1);
      }
      CandidatesBound(base, rest, start, i - 1);
    }
  }

  /** The smallest index `r >= i` whose candidate is not in use, given that every
      index in [start, i) is taken. */
  function FirstFree(base: string, inUse: set<string>, start: nat, i: nat): (r: nat)
    requires start <= i
    requires forall j :: start <= j < i ==> Suffixed(base, j) in inUse
    ensures r >= i
    ensures Suffixed(base, r) !in inUse
    ensures forall j :: start <= j < r ==> Suffixed(base, j) in inUse
    decreases |inUse| + start - i
  {
    CandidatesBound(base, inUse, start, i);
    if Suffixed(base, i) !in inUse then i
    else
      CandidatesBound(base, inUse, start, i + 1);
      FirstFree(base, inUse, start, i + 1)
  }

  /** `this.nameCounters[base] || 1`: a missing or zero counter reads as 1. */
  function CounterOf(counters: map<string, nat>, base: string): (c: nat)
    ensures c >= 1
    ensures base in counters && counters[base] > 0 ==> c == counters[base]
  {
    if base in counters && counters[base] > 0 then counters[base] else 1
  }

  datatype Named = Named(name: string, counters: map<string, nat>)

  /** `_generateUniqueName`: the sanitised base if no registered object uses it (and its
      counter is created at 1 if missing), otherwise `base_i` for the smallest free
      i at or above the base's counter, with the counter moved to i + 1. */
  function GenerateUniqueName(base: string, inUse: set<string>, counters: map<string, nat>): (r: Named)
    ensures r.name !in inUse
    ensures var b := SanitizeName(Some(base));
      b !in inUse ==> r.name == b && r.counters == counters[b := CounterOf(counters, b)]
    ensures var b := SanitizeName(Some(base));
      b in inUse ==> (exists i :: i >= CounterOf(counters, b) && r.name == Suffixed(b, i)
                                 && r.counters == counters[b := i + 1]
                                 && (forall j :: CounterOf(counters, b) <= j < i ==> Suffixed(b, j) in inUse))
  {
    var b := SanitizeName(Some(base));
    if b !in inUse then
      Named(b, counters[b := CounterOf(counters, b)])
    else
      var start := CounterOf(counters, b);
      var i := FirstFree(b, inUse, start, start);
      Named(Suffixed(b, i), counters[b := i + 1])
  }

  /** Uniquifying never touches the counters of other bases. */
  lemma GenerateUniqueNameFrame(base: string, inUse: set<string>, counters: map<string, nat>, other: string)
    requires other != SanitizeName(Some(base))
    ensures var r := GenerateUniqueName(base, inUse, counters);
      (other in r.counters <==> other in counters)
      && (other in counters ==> r.counters[other] == counters[other])
  {
  }

  // ---------------------------------------------------------------------------
  // Inline rename.

  /** `String.prototype.trim`: drop leading and trailing white space. */
  function Trim(s: string): (r: string)
    ensures |r| <= |s|
    ensures |r| > 0 ==> !IsJsSpace(r[0]) && !IsJsSpace(r[|r| - 1])
    ensures (forall i :: 0 <= i < |s| ==> !IsJsSpace(s[i])) ==> r == s
    decreases |s|
  {
    if |s| == 0 then s
    else if IsJsSpace(s[0]) then Trim(s[1..])
    else if IsJsSpace(s[|s| - 1]) then Trim(s[..|s| - 1])
    else s
  }

  /** The `finish(commit)` step of `_beginRename`. `others` are the names of the other
      registered objects. Escape (no commit) or an all-blank value keeps `current`;
      otherwise the sanitised value, suffixed like `_generateUniqueName` when another
      object already has it. Unlike `_generateUniqueName`, an unused name leaves the
      counters alone. */
  function FinishRename(current: string, value: string, commit: bool, others: set<string>,
                        counters: map<string, nat>): (r: Named)
    ensures !commit || Trim(value) == "" ==> r == Named(current, counters)
    ensures commit && Trim(value) != "" ==> r.name !in others
    ensures commit && Trim(value) != "" && SanitizeName(Some(Trim(value))) !in others ==>
      r == Named(SanitizeName(Some(Trim(value))), counters)
    ensures var b := SanitizeName(Some(Trim(value)));
      commit && Trim(value) != "" && b in others ==>
        (exists i :: i >= CounterOf(counters, b) && r.name == Suffixed(b, i) && r.counters == counters[b := i + 1])
  {
    var raw := Trim(value);
    if !commit || raw == "" then Named(current, counters)
    else
      var b := SanitizeName(Some(raw));
      if b !in others then Named(b, counters)
      else
        var start := CounterOf(counters, b);
        var i := FirstFree(b, others, start, start);
        Named(Suffixed(b, i), counters[b := i + 1])
  }

  /** A committed rename yields a sanitised name: at most 20 characters when no
      suffix was needed. */
  lemma FinishRenameSanitised(current: string, value: string, others: set<string>, counters: map<string, nat>)
    requires Trim(value) != ""
    requires SanitizeName(Some(Trim(value))) !in others
    ensures |FinishRename(current, value, true, others, counters).name| <= MaxNameLength
  {
  }
}
