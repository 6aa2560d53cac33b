/**
 * The gemspec line parser of the bundler cataloger
 * (syft/cataloger/bundler/parse_gemspec.go).
 *
 * The reader is taken as the sequence of lines a line scanner yields, and
 * the one regular expression the parser uses, `.*\.name *= *(.*) *`, is
 * modelled as a predicate on strings together with the span of its match.
 */
module Bundler {
  import opened Wrappers

  datatype Language = UnknownLanguage | Ruby

  datatype PackageType = UnknownPkg | BundlerPkg | GemPkg

  /** A package's metadata payload; this parser never sets it. */
  datatype Metadata = NilMetadata | OpaqueMetadata(id: nat)

  datatype Package = Package(name: string, version: string, language: Language, pkgType: PackageType, metadata: Metadata)

  /** A line as a line scanner yields it: it never holds a newline. */
  type Line = s: string | '\n' !in s

  // ---------------------------------------------------------------------
  // strings.TrimSpace

  /** unicode.IsSpace. */
  predicate IsSpace(c: char) {
    c == ' ' || '\t' <= c <= '\r' || c == '\U{85}' || c == '\U{A0}' || c == '\U{1680}' ||
    '\U{2000}' <= c <= '\U{200A}' || c == '\U{2028}' || c == '\U{2029}' || c == '\U{202F}' ||
    c == '\U{205F}' || c == '\U{3000}'
  }

  predicate AllSpace(s: string) {
    forall k :: 0 <= k < |s| ==> IsSpace(s[k])
  }

  /** Neither end of `s` is white space. */
  predicate Trimmed(s: string) {
    s == [] || (!IsSpace(s[0]) && !IsSpace(s[|s| - 1]))
  }

  /** The first index at or after `i` that is not white space (or |s|). */
  function TrimStartFrom(s: string, i: nat): (start: nat)
    requires i <= |s|
    ensures i <= start <= |s| && AllSpace(s[i..start])
    ensures start < |s| ==> !IsSpace(s[start])
    decreases |s| - i
  {
    if i < |s| && IsSpace(s[i]) then TrimStartFrom(s, i + 1) else i
  }

  /** The end of `s` once trailing white space down to `start` is dropped. */
  function TrimStop(s: string, start: nat, stop: nat): (end: nat)
    requires start <= stop <= |s|
    ensures start <= end <= stop && AllSpace(s[end..stop])
    ensures start < end ==> !IsSpace(s[end - 1])
    decreases stop
  {
    if start < stop && IsSpace(s[stop - 1]) then
      var end := TrimStop(s, start, stop - 1);
      assert s[end..stop] == s[end..stop - 1] + [s[stop - 1]];
      end
    else stop
  }

  /** strings.TrimSpace: `s` without its leading and trailing white space. */
  function TrimSpace(s: string): (r: string)
    ensures Trimmed(r)
    ensures TrimStartFrom(s, 0) + |r| <= |s|
    ensures r == s[TrimStartFrom(s, 0)..TrimStartFrom(s, 0) + |r|]
    ensures AllSpace(s[..TrimStartFrom(s, 0)]) && AllSpace(s[TrimStartFrom(s, 0) + |r|..])
  {
    var start := TrimStartFrom(s, 0);
    s[start..TrimStop(s, start, |s|)]
  }

  /** The first non-space at or after `i` is where TrimStartFrom stops. */
  lemma TrimStartFromStopsAt(s: string, i: nat, k: nat)
    requires i <= k <= |s| && AllSpace(s[i..k]) && (k < |s| ==> !IsSpace(s[k]))
    ensures TrimStartFrom(s, i) == k
  {
  }

  /** The last non-space before `stop` (and after `start`) is where TrimStop stops. */
  lemma TrimStopStopsAt(s: string, start: nat, stop: nat, end: nat)
    requires start <= end <= stop <= |s| && AllSpace(s[end..stop]) && (start < end ==> !IsSpace(s[end - 1]))
    ensures TrimStop(s, start, stop) == end
  {
  }

  /**
   * TrimSpace removes exactly the white space around a trimmed core: with
   * TrimSpace's own postcondition this pins its result down uniquely.
   */
  lemma TrimSpaceOfPadded(lead: string, core: string, trail: string)
    requires AllSpace(lead) && AllSpace(trail) && Trimmed(core)
    ensures TrimSpace(lead + core + trail) == core
  {
    var s := lead + core + trail;
    var coreEnd := |lead| + |core|;
    assert s[..|lead|] == lead && s[|lead|..coreEnd] == core && s[coreEnd..] == trail;
    if core == [] {
      assert s[0..|s|] == lead + trail;
      assert AllSpace(lead + trail) by {
        forall k | 0 <= k < |lead + trail| ensures IsSpace((lead + trail)[k]) {
          if k >= |lead| { assert (lead + trail)[k] == trail[k - |lead|]; }
        }
      }
      TrimStartFromStopsAt(s, 0, |s|);
      TrimStopStopsAt(s, |s|, |s|, |s|);
    } else {
      assert s[0..|lead|] == lead;
      assert s[|lead|] == core[0];
      TrimStartFromStopsAt(s, 0, |lead|);
      assert s[coreEnd - 1] == core[|core| - 1];
      TrimStopStopsAt(s, |lead|, |s|, coreEnd);
    }
  }

  /** Trimming twice is trimming once. */
  lemma TrimSpaceIdempotent(s: string)
    ensures TrimSpace(TrimSpace(s)) == TrimSpace(s)
  {
  }

  // ---------------------------------------------------------------------
  // The name pattern `.*\.name *= *(.*) *`

  const NameField := ".name"

  /** Only the literal space character: the pattern's ` *`. */
  predicate OnlyBlanks(s: string) {
    forall k :: 0 <= k < |s| ==> s[k] == ' '
  }

  /** `t` holds `.name` at `i`, then blanks, then `=` at `j`. */
  predicate NameAssignAt(t: string, i: nat, j: nat) {
    i + |NameField| <= j < |t| && t[i..i + |NameField|] == NameField &&
    OnlyBlanks(t[i + |NameField|..j]) && t[j] == '='
  }

  /** The pattern matches somewhere in `t` (the `.*` ends can be empty). */
  ghost predicate HasNameAssign(t: string) {
    exists i: nat, j: nat :: NameAssignAt(t, i, j)
  }

  /**
   * `t[a..b]` is a match of the whole pattern: it has no newline (which `.`
   * does not match) and holds a `.name *=` assignment, with the leading `.*`
   * before it and ` *(.*) *` after it.
   */
  ghost predicate MatchesSpan(t: string, a: nat, b: nat) {
    a <= b <= |t| && '\n' !in t[a..b] &&
    exists i: nat, j: nat :: a <= i && j < b && NameAssignAt(t, i, j)
  }

  /**
   * `t[a..b]` is the match the regexp package reports: the leftmost one, and
   * of those starting there the longest (for this pattern, whose `.*` and
   * `(.*)` are greedy, leftmost-first and leftmost-longest agree).
   */
  ghost predicate IsReportedMatch(t: string, a: nat, b: nat) {
    MatchesSpan(t, a, b) &&
    forall a': nat, b': nat :: MatchesSpan(t, a', b') ==> a <= a' && (a' == a ==> b' <= b)
  }

  /** The end of the run of blanks starting at `k`. */
  function SkipBlanks(t: string, k: nat): (e: nat)
    requires k <= |t|
    ensures k <= e <= |t| && OnlyBlanks(t[k..e])
    ensures e < |t| ==> t[e] != ' '
    decreases |t| - k
  {
    if k < |t| && t[k] == ' ' then SkipBlanks(t, k + 1) else k
  }

  /** A non-blank after a run of blanks is where SkipBlanks stops. */
  lemma SkipBlanksStopsAt(t: string, k: nat, j: nat)
    requires k <= j < |t| && OnlyBlanks(t[k..j]) && t[j] != ' '
    ensures SkipBlanks(t, k) == j
  {
  }

  /** The leftmost `.name *=` assignment at or after `from`. */
  function FindNameAssign(t: string, from: nat): (r: Option<nat>)
    requires from <= |t|
    ensures r.Some? ==> from <= r.value && exists j: nat :: NameAssignAt(t, r.value, j)
    ensures r.Some? ==> forall i: nat, j: nat :: from <= i < r.value ==> !NameAssignAt(t, i, j)
    ensures r.None? ==> forall i: nat, j: nat :: from <= i ==> !NameAssignAt(t, i, j)
    decreases |t| - from
  {
    if |t| < from + |NameField| then None
    else
      var e := SkipBlanks(t, from + |NameField|);
      if t[from..from + |NameField|] == NameField && e < |t| && t[e] == '=' then
        assert NameAssignAt(t, from, e);
        Some(from)
      else
        assert forall j: nat :: !NameAssignAt(t, from, j) by {
          forall j: nat | NameAssignAt(t, from, j) ensures false {
            SkipBlanksStopsAt(t, from + |NameField|, j);
          }
        }
        FindNameAssign(t, from + 1)
  }

  /**
   * `namePattern.FindAllStringSubmatch(t, 1)`, reduced to the whole match of
   * its first result: `None` is Go's nil, and a match is the whole of `t`.
   */
  function FindNameMatch(t: string): (m: Option<string>)
    requires '\n' !in t
    ensures m.Some? <==> HasNameAssign(t)
    ensures m.Some? ==> IsReportedMatch(t, 0, |t|) && m.value == t[0..|t|]
  {
    match FindNameAssign(t, 0)
    case None => None
    case Some(i) =>
      assert NameAssignAt(t, i, SkipBlanks(t, i + |NameField|));
      assert t[0..|t|] == t;
      assert MatchesSpan(t, 0, |t|);
      Some(t)
  }

  /** An assignment inside a slice is the same assignment in the whole string, shifted. */
  lemma NameAssignInSlice(s: string, a: nat, b: nat, i: nat, j: nat)
    requires a <= b <= |s| && j < b - a
    ensures NameAssignAt(s[a..b], i, j) <==> NameAssignAt(s, a + i, a + j)
  {
    var r := s[a..b];
    var n := |NameField|;
    if i + n <= j {
      var field, field' := r[i..i + n], s[a + i..a + i + n];
      forall m | 0 <= m < n ensures field[m] == field'[m] {
        assert field[m] == r[i + m];
      }
      var blanks, blanks' := r[i + n..j], s[a + i + n..a + j];
      forall m | 0 <= m < j - i - n ensures blanks[m] == blanks'[m] {
        assert blanks[m] == r[i + n + m];
      }
      assert field == field' && blanks == blanks';
    }
  }

  /** An assignment starts with `.` and ends with `=`, neither white space, so it lies inside the trimmed slice. */
  lemma NameAssignInsideTrim(s: string, i: nat, j: nat)
    requires NameAssignAt(s, i, j)
    ensures TrimStartFrom(s, 0) <= i && j < TrimStartFrom(s, 0) + |TrimSpace(s)|
  {
    assert s[i] == s[i..i + |NameField|][0] == '.';
  }

  /**
   * Trimming never decides whether a line matches: the assignment begins and
   * ends with non-space characters, so it lies inside the trimmed slice.
   */
  lemma TrimmingKeepsNameAssign(s: string)
    ensures HasNameAssign(s) <==> HasNameAssign(TrimSpace(s))
  {
    var a := TrimStartFrom(s, 0);
    var r := TrimSpace(s);
    var e := a + |r|;
    if HasNameAssign(s) {
      var i: nat, j: nat :| NameAssignAt(s, i, j);
      NameAssignInsideTrim(s, i, j);
      NameAssignInSlice(s, a, e, i - a, j - a);
    }
    if HasNameAssign(r) {
      var i: nat, j: nat :| NameAssignAt(r, i, j);
      NameAssignInSlice(s, a, e, i, j);
    }
  }

  // ---------------------------------------------------------------------
  // parseGemspecEntries

  /**
   * parseGemspecEntries: one Ruby bundler package per line, in line order,
   * named by the whole match of the name pattern on the trimmed line. A line
   * the pattern does not match would index a nil result and panic, so every
   * line must match.
   */
  method ParseGemspecEntries(filePath: string, lines: seq<Line>) returns (pkgs: seq<Package>, err: Option<string>)
    requires forall k :: 0 <= k < |lines| ==> HasNameAssign(TrimSpace(lines[k]))
    ensures err == None
    ensures |pkgs| == |lines|
    ensures forall k :: 0 <= k < |lines| ==>
              pkgs[k].name == TrimSpace(lines[k]) && IsReportedMatch(TrimSpace(lines[k]), 0, |pkgs[k].name|)
    ensures forall k :: 0 <= k < |lines| ==>
              pkgs[k].language == Ruby && pkgs[k].pkgType == BundlerPkg &&
              pkgs[k].version == "" && pkgs[k].metadata == NilMetadata
  {
    pkgs := [];
    var n := 0;
    while n < |lines|
      invariant n <= |lines| && |pkgs| == n
      invariant forall k :: 0 <= k < n ==>
                  pkgs[k] == Package(TrimSpace(lines[k]), "", Ruby, BundlerPkg, NilMetadata) &&
                  IsReportedMatch(TrimSpace(lines[k]), 0, |pkgs[k].name|)
    {
      var sanitizedLine := TrimSpace(lines[n]);
      var matches := FindNameMatch(sanitizedLine);
      pkgs := pkgs + [Package(matches.value, "", Ruby, BundlerPkg, NilMetadata)];
      n := n + 1;
    }
    err := None;
  }
}
