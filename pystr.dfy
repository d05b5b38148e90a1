/**
 The few Python `str` operations the signature converter is built from,
 written with the semantics CPython gives them: `replace` (left to right,
 non-overlapping), `re.sub(" +", "", ...)`, `strip`, `split` on a single
 character, `join` and `removesuffix`.
 */
module PyStr {

  /** A value of type `str | None`. */
  datatype Option<T> = None | Some(value: T)

  /** Python truthiness of a `str | None`: neither `None` nor the empty string. */
  predicate Truthy(o: Option<string>) {
    o.Some? && o.value != ""
  }

  /** The characters for which `str.isspace()` holds; `str.strip()` removes exactly these. */
  const Whitespace: set<char> := {
    '\t', '\n', '\U{0B}', '\U{0C}', '\r', '\U{1C}', '\U{1D}', '\U{1E}', '\U{1F}', ' ',
    '\U{85}', '\U{A0}', '\U{1680}',
    '\U{2000}', '\U{2001}', '\U{2002}', '\U{2003}', '\U{2004}', '\U{2005}', '\U{2006}',
    '\U{2007}', '\U{2008}', '\U{2009}', '\U{200A}',
    '\U{2028}', '\U{2029}', '\U{202F}', '\U{205F}', '\U{3000}'
  }

  predicate IsSpace(c: char) {
    c in Whitespace
  }

  predicate AllSpace(s: string) {
    forall i :: 0 <= i < |s| ==> IsSpace(s[i])
  }

  /** Neither end of `s` is whitespace (vacuously true of the empty string). */
  predicate Trimmed(s: string) {
    s == [] || (!IsSpace(s[0]) && !IsSpace(s[|s| - 1]))
  }

  /** `s.startswith(prefix)`, compared character by character. */
  predicate StartsWith(s: string, prefix: string)
    decreases |prefix|
  {
    prefix == [] || (s != [] && s[0] == prefix[0] && StartsWith(s[1..], prefix[1..]))
  }

  predicate EndsWith(s: string, suffix: string) {
    |suffix| <= |s| && s[|s| - |suffix|..] == suffix
  }

  /** `pat in s`: some position of `s` starts an occurrence of `pat`. */
  predicate Contains(s: string, pat: string)
    decreases |s|
  {
    StartsWith(s, pat) || (s != [] && Contains(s[1..], pat))
  }

  /**
   `s.replace(pat, rep)` for a non-empty `pat`: scan left to right, replace
   each occurrence and continue after it, so occurrences never overlap.
   */
  function ReplaceAll(s: string, pat: string, rep: string): string
    requires pat != []
    decreases |s|
  {
    if |pat| <= |s| && StartsWith(s, pat) then rep + ReplaceAll(s[|pat|..], pat, rep)
    else if s == [] then []
    else [s[0]] + ReplaceAll(s[1..], pat, rep)
  }

  /** Every `c` of `s` replaced by `rep`: the reference for a one-character `replace`. */
  function Subst(s: string, c: char, rep: string): string
    decreases |s|
  {
    if s == [] then [] else (if s[0] == c then rep else [s[0]]) + Subst(s[1..], c, rep)
  }

  /** `s` with every `c` deleted. */
  function Remove(s: string, c: char): (r: string)
    ensures |r| <= |s|
    ensures forall x :: x in r <==> x in s && x != c
    decreases |s|
  {
    if s == [] then [] else (if s[0] == c then [] else [s[0]]) + Remove(s[1..], c)
  }

  /** `s` without its leading run of spaces. */
  function SkipSpaces(s: string): (r: string)
    ensures |r| <= |s|
    ensures r == [] || r[0] != ' '
    decreases |s|
  {
    if s != [] && s[0] == ' ' then SkipSpaces(s[1..]) else s
  }

  /** `re.sub(r" +", "", s)`: every maximal run of spaces is deleted. */
  function SubSpaceRuns(s: string): string
    decreases |s|
  {
    if s == [] then []
    else if s[0] == ' ' then SubSpaceRuns(SkipSpaces(s))
    else [s[0]] + SubSpaceRuns(s[1..])
  }

  /** `s.lstrip()`. */
  function LStrip(s: string): (r: string)
    ensures |r| <= |s|
    ensures r == [] || !IsSpace(r[0])
    decreases |s|
  {
    if s != [] && s[0] in Whitespace then LStrip(s[1..]) else s
  }

  /** `s.rstrip()`. */
  function RStrip(s: string): (r: string)
    ensures |r| <= |s|
    ensures r == [] || !IsSpace(r[|r| - 1])
    decreases |s|
  {
    if s != [] && s[|s| - 1] in Whitespace then RStrip(s[..|s| - 1]) else s
  }

  /** `s.strip()`. */
  function Strip(s: string): string {
    RStrip(LStrip(s))
  }

  /** `sep.join(parts)`. */
  function Join(sep: string, parts: seq<string>): string
    decreases |parts|
  {
    if parts == [] then []
    else if |parts| == 1 then parts[0]
    else parts[0] + sep + Join(sep, parts[1..])
  }

  /** `s.split(c)` for a one-character separator: the pieces between the separators. */
  function Split(s: string, c: char): (parts: seq<string>)
    ensures |parts| >= 1
    ensures forall k :: 0 <= k < |parts| ==> c !in parts[k]
    ensures Join([c], parts) == s
    decreases |s|
  {
    if s == [] then [[]]
    else
      var rest := Split(s[1..], c);
      if s[0] == c then [[]] + rest else [[s[0]] + rest[0]] + rest[1..]
  }

  /** `s.removesuffix(suffix)`. */
  function RemoveSuffix(s: string, suffix: string): (r: string)
    ensures |r| <= |s| && r == s[..|r|]
  {
    if suffix != [] && EndsWith(s, suffix) then s[..|s| - |suffix|] else s
  }

  // ---------------------------------------------------------------------
  // `replace` and `re.sub`

  /** `startswith` agrees with comparing the leading slice. */
  lemma {:induction false} StartsWithSlice(s: string, prefix: string)
    ensures StartsWith(s, prefix) <==> |prefix| <= |s| && s[..|prefix|] == prefix
    decreases |prefix|
  {
    if prefix != [] && s != [] {
      StartsWithSlice(s[1..], prefix[1..]);
      if |prefix| <= |s| && s[..|prefix|] == prefix {
        assert s[1..][..|prefix| - 1] == prefix[1..];
      }
      if |prefix| <= |s| && s[0] == prefix[0] && s[1..][..|prefix| - 1] == prefix[1..] {
        assert s[..|prefix|] == [s[0]] + s[1..][..|prefix| - 1];
        assert prefix == [prefix[0]] + prefix[1..];
      }
    }
  }

  /** A one-character `replace` substitutes every occurrence of that character. */
  lemma {:induction false} ReplaceAllChar(s: string, c: char, rep: string)
    ensures ReplaceAll(s, [c], rep) == Subst(s, c, rep)
    decreases |s|
  {
    if s != [] {
      StartsWithSlice(s, [c]);
      ReplaceAllChar(s[1..], c, rep);
    }
  }

  lemma {:induction false} SubstConcat(a: string, b: string, c: char, rep: string)
    ensures Subst(a + b, c, rep) == Subst(a, c, rep) + Subst(b, c, rep)
    decreases |a|
  {
    if a != [] {
      assert (a + b)[0] == a[0];
      assert (a + b)[1..] == a[1..] + b;
      SubstConcat(a[1..], b, c, rep);
      var h := if a[0] == c then rep else [a[0]];
      calc {
        Subst(a + b, c, rep);
        h + Subst(a[1..] + b, c, rep);
        h + (Subst(a[1..], c, rep) + Subst(b, c, rep));
        (h + Subst(a[1..], c, rep)) + Subst(b, c, rep);
      }
    } else {
      assert a + b == b;
    }
  }

  /** Deleting by substitution with the empty string is `Remove`. */
  lemma {:induction false} SubstEmptyIsRemove(s: string, c: char)
    ensures Subst(s, c, []) == Remove(s, c)
    decreases |s|
  {
    if s != [] {
      SubstEmptyIsRemove(s[1..], c);
    }
  }

  /** `s.replace(c, "")` deletes every `c`. */
  lemma ReplaceAllDelete(s: string, c: char)
    ensures ReplaceAll(s, [c], []) == Remove(s, c)
  {
    ReplaceAllChar(s, c, []);
    SubstEmptyIsRemove(s, c);
  }

  lemma {:induction false} RemoveConcat(a: string, b: string, c: char)
    ensures Remove(a + b, c) == Remove(a, c) + Remove(b, c)
    decreases |a|
  {
    if a != [] {
      assert (a + b)[0] == a[0];
      assert (a + b)[1..] == a[1..] + b;
      RemoveConcat(a[1..], b, c);
      var h := if a[0] == c then [] else [a[0]];
      calc {
        Remove(a + b, c);
        h + Remove(a[1..] + b, c);
        h + (Remove(a[1..], c) + Remove(b, c));
        (h + Remove(a[1..], c)) + Remove(b, c);
      }
    } else {
      assert a + b == b;
    }
  }

  /** Deleting a character that does not occur changes nothing. */
  lemma {:induction false} RemoveAbsent(s: string, c: char)
    requires c !in s
    ensures Remove(s, c) == s
    decreases |s|
  {
    if s != [] {
      RemoveAbsent(s[1..], c);
    }
  }

  lemma {:induction false} RemoveSkipSpaces(s: string)
    ensures Remove(SkipSpaces(s), ' ') == Remove(s, ' ')
    decreases |s|
  {
    if s != [] && s[0] == ' ' {
      RemoveSkipSpaces(s[1..]);
    }
  }

  /** Deleting every run of spaces with `re.sub(r" +", "", s)` deletes every space. */
  lemma {:induction false} SubSpaceRunsIsRemove(s: string)
    ensures SubSpaceRuns(s) == Remove(s, ' ')
    decreases |s|
  {
    if s == [] {
    } else if s[0] == ' ' {
      RemoveSkipSpaces(s);
      SubSpaceRunsIsRemove(SkipSpaces(s));
    } else {
      SubSpaceRunsIsRemove(s[1..]);
    }
  }

  /** `replace` never brings in a character that neither the text nor the replacement holds. */
  lemma {:induction false} ReplaceAllKeepsAbsent(s: string, pat: string, rep: string, c: char)
    requires pat != [] && c !in s && c !in rep
    ensures c !in ReplaceAll(s, pat, rep)
    decreases |s|
  {
    if |pat| <= |s| && StartsWith(s, pat) {
      ReplaceAllKeepsAbsent(s[|pat|..], pat, rep, c);
    } else if s != [] {
      ReplaceAllKeepsAbsent(s[1..], pat, rep, c);
    }
  }

  /** A pattern whose first character is missing from the text does not occur in it. */
  lemma {:induction false} NotContainsHead(s: string, pat: string)
    requires pat != [] && pat[0] !in s
    ensures !Contains(s, pat)
    decreases |s|
  {
    if s != [] {
      NotContainsHead(s[1..], pat);
    }
  }

  /** `replace` is the identity on a text without an occurrence of the pattern. */
  lemma {:induction false} ReplaceAllAbsent(s: string, pat: string, rep: string)
    requires pat != [] && !Contains(s, pat)
    ensures ReplaceAll(s, pat, rep) == s
    decreases |s|
  {
    if s != [] {
      ReplaceAllAbsent(s[1..], pat, rep);
    }
  }

  /** A text that does not start with the pattern keeps its first character. */
  lemma ReplaceAllStep(s: string, pat: string, rep: string)
    requires pat != [] && s != [] && !StartsWith(s, pat)
    ensures ReplaceAll(s, pat, rep) == [s[0]] + ReplaceAll(s[1..], pat, rep)
  {
  }

  /** A prefix without the pattern's first character passes through `replace` unchanged. */
  lemma {:induction false} ReplaceAllPlain(a: string, b: string, pat: string, rep: string)
    requires pat != [] && pat[0] !in a
    ensures ReplaceAll(a + b, pat, rep) == a + ReplaceAll(b, pat, rep)
    decreases |a|
  {
    if a == [] {
      assert a + b == b;
    } else {
      assert (a + b)[0] == a[0];
      assert !StartsWith(a + b, pat);
      assert (a + b)[1..] == a[1..] + b;
      ReplaceAllPlain(a[1..], b, pat, rep);
      calc {
        ReplaceAll(a + b, pat, rep);
        [a[0]] + ReplaceAll(a[1..] + b, pat, rep);
        [a[0]] + (a[1..] + ReplaceAll(b, pat, rep));
        ([a[0]] + a[1..]) + ReplaceAll(b, pat, rep);
        { assert [a[0]] + a[1..] == a; }
        a + ReplaceAll(b, pat, rep);
      }
    }
  }

  /**
   A replacement no longer than the pattern never lengthens the text, and a
   strictly shorter one shortens it whenever the pattern occurs.
   */
  lemma {:induction false} ReplaceAllShrinks(s: string, pat: string, rep: string)
    requires pat != [] && |rep| <= |pat|
    ensures |ReplaceAll(s, pat, rep)| <= |s|
    ensures |rep| < |pat| && Contains(s, pat) ==> |ReplaceAll(s, pat, rep)| < |s|
    decreases |s|
  {
    if |pat| <= |s| && StartsWith(s, pat) {
      ReplaceAllShrinks(s[|pat|..], pat, rep);
    } else if s != [] {
      StartsWithSlice(s, pat);
      ReplaceAllShrinks(s[1..], pat, rep);
    }
  }

  // ---------------------------------------------------------------------
  // `strip`

  lemma {:induction false} LStripSkipsSpace(lead: string, z: string)
    requires AllSpace(lead)
    ensures LStrip(lead + z) == LStrip(z)
    decreases |lead|
  {
    if lead != [] {
      assert (lead + z)[0] == lead[0];
      assert (lead + z)[1..] == lead[1..] + z;
      LStripSkipsSpace(lead[1..], z);
    } else {
      assert lead + z == z;
    }
  }

  lemma {:induction false} RStripSkipsSpace(z: string, trail: string)
    requires AllSpace(trail)
    ensures RStrip(z + trail) == RStrip(z)
    decreases |trail|
  {
    if trail != [] {
      var n := |trail| - 1;
      assert (z + trail)[|z + trail| - 1] == trail[n];
      assert (z + trail)[..|z + trail| - 1] == z + trail[..n];
      RStripSkipsSpace(z, trail[..n]);
    } else {
      assert z + trail == z;
    }
  }

  lemma {:induction false} LStripSplit(s: string) returns (lead: string)
    ensures AllSpace(lead) && s == lead + LStrip(s)
    decreases |s|
  {
    if s != [] && IsSpace(s[0]) {
      var rest := LStripSplit(s[1..]);
      lead := [s[0]] + rest;
      assert s == [s[0]] + s[1..];
    } else {
      lead := [];
    }
  }

  lemma {:induction false} RStripSplit(s: string) returns (trail: string)
    ensures AllSpace(trail) && s == RStrip(s) + trail
    decreases |s|
  {
    if s != [] && IsSpace(s[|s| - 1]) {
      var n := |s| - 1;
      var rest := RStripSplit(s[..n]);
      trail := rest + [s[n]];
      assert RStrip(s) == RStrip(s[..n]);
      assert s == s[..n] + [s[n]];
      assert AllSpace(trail) by {
        forall i | 0 <= i < |trail|
          ensures IsSpace(trail[i])
        {
          if i < |rest| {
            assert trail[i] == rest[i];
          }
        }
      }
      calc {
        s;
        s[..n] + [s[n]];
        (RStrip(s[..n]) + rest) + [s[n]];
        RStrip(s) + trail;
      }
    } else {
      trail := [];
    }
  }

  /** What `strip` returns has no whitespace at either end. */
  lemma StripTrimmed(s: string)
    ensures Trimmed(Strip(s)) && |Strip(s)| <= |s|
  {
    var l := LStrip(s);
    var r := RStrip(l);
    var trail := RStripSplit(l);
    if r != [] {
      assert r[0] == l[0];
    }
  }

  lemma {:induction false} LStripAllSpace(s: string)
    requires AllSpace(s)
    ensures LStrip(s) == []
    decreases |s|
  {
    if s != [] {
      LStripAllSpace(s[1..]);
    }
  }

  /** `strip` splits a text into a whitespace lead, its result and a whitespace trail. */
  lemma StripSplit(s: string) returns (lead: string, trail: string)
    ensures AllSpace(lead) && AllSpace(trail)
    ensures s == lead + Strip(s) + trail
    ensures Trimmed(Strip(s))
  {
    var l := LStrip(s);
    var r := RStrip(l);
    lead := LStripSplit(s);
    trail := RStripSplit(l);
    assert Strip(s) == r;
    StripTrimmed(s);
    calc {
      s;
      lead + l;
      lead + (r + trail);
      lead + r + trail;
    }
  }

  /** A trimmed text framed by whitespace is exactly what `strip` returns. */
  lemma StripFramed(lead: string, m: string, trail: string)
    requires AllSpace(lead) && AllSpace(trail) && Trimmed(m)
    ensures Strip(lead + m + trail) == m
  {
    assert lead + m + trail == lead + (m + trail);
    LStripSkipsSpace(lead, m + trail);
    if m == [] {
      assert m + trail == trail;
      LStripAllSpace(trail);
    } else {
      assert LStrip(m + trail) == m + trail;
      RStripSkipsSpace(m, trail);
    }
  }

  /** `strip` leaves nothing exactly of a text that is all whitespace. */
  lemma StripEmpty(s: string)
    ensures Strip(s) == [] <==> AllSpace(s)
  {
    var lead, trail := StripSplit(s);
    if AllSpace(s) {
      LStripAllSpace(s);
    }
  }

  /** The whitespace on either side of a stripped value, in the text it was stripped from. */
  datatype Frame = Frame(lead: string, trail: string)

  /** `s` is `v` with the whitespace `fr` around it, and `v` has none at its ends. */
  predicate Framed(s: string, v: string, fr: Frame) {
    AllSpace(fr.lead) && AllSpace(fr.trail) && Trimmed(v) && s == fr.lead + v + fr.trail
  }

  /** `strip` returns the framed value of its input, with the frame it removed. */
  lemma StripFrame(s: string) returns (fr: Frame)
    ensures Framed(s, Strip(s), fr)
  {
    var lead, trail := StripSplit(s);
    fr := Frame(lead, trail);
  }

  /** A framing pins the value down: whatever frame is used, the value is what `strip` returns. */
  lemma FramedIsStrip(s: string, v: string, fr: Frame)
    requires Framed(s, v, fr)
    ensures v == Strip(s)
  {
    StripFramed(fr.lead, v, fr.trail);
  }

  /** Whitespace added around a text does not change what `strip` returns. */
  lemma StripIgnoresFrame(lead: string, z: string, trail: string)
    requires AllSpace(lead) && AllSpace(trail)
    ensures Strip(lead + z + trail) == Strip(z)
  {
    var l, r := StripSplit(z);
    assert lead + z + trail == (lead + l) + Strip(z) + (r + trail);
    StripFramed(lead + l, Strip(z), r + trail);
  }

  /** `strip` is idempotent. */
  lemma StripIdempotent(s: string)
    ensures Strip(Strip(s)) == Strip(s)
  {
    var l, r := StripSplit(s);
    assert [] + Strip(s) + [] == Strip(s);
    StripFramed([], Strip(s), []);
  }

  lemma RemoveKeepsSpace(s: string, c: char)
    requires AllSpace(s)
    ensures AllSpace(Remove(s, c))
  {
    var r := Remove(s, c);
    forall i | 0 <= i < |r| ensures IsSpace(r[i]) {
      assert r[i] in r;
    }
  }

  lemma RemoveKeepsTrimmed(m: string, c: char)
    requires Trimmed(m) && IsSpace(c)
    ensures Trimmed(Remove(m, c))
  {
    if m != [] {
      var n := |m| - 1;
      assert m == m[..n] + [m[n]];
      RemoveConcat(m[..n], [m[n]], c);
      assert Remove([m[n]], c) == [m[n]];
    }
  }

  /** Deleting a whitespace character commutes with `strip`. */
  lemma StripRemoveCommute(s: string, c: char)
    requires IsSpace(c)
    ensures Remove(Strip(s), c) == Strip(Remove(s, c))
  {
    var lead, trail := StripSplit(s);
    var m := Strip(s);
    RemoveConcat(lead + m, trail, c);
    RemoveConcat(lead, m, c);
    assert Remove(s, c) == Remove(lead, c) + Remove(m, c) + Remove(trail, c);
    RemoveKeepsSpace(lead, c);
    RemoveKeepsSpace(trail, c);
    RemoveKeepsTrimmed(m, c);
    StripFramed(Remove(lead, c), Remove(m, c), Remove(trail, c));
  }

  // ---------------------------------------------------------------------
  // `in`

  /** Whitespace in front of a text hides no occurrence of a pattern that starts with a non-space. */
  lemma {:induction false} ContainsAfterSpace(lead: string, z: string, pat: string)
    requires AllSpace(lead) && pat != [] && !IsSpace(pat[0])
    ensures Contains(lead + z, pat) <==> Contains(z, pat)
    decreases |lead|
  {
    if lead != [] {
      assert (lead + z)[0] == lead[0];
      assert (lead + z)[1..] == lead[1..] + z;
      ContainsAfterSpace(lead[1..], z, pat);
    } else {
      assert lead + z == z;
    }
  }

  lemma {:induction false} ContainsNotInSpace(trail: string, pat: string)
    requires AllSpace(trail) && pat != [] && !IsSpace(pat[0])
    ensures !Contains(trail, pat)
    decreases |trail|
  {
    if trail != [] {
      ContainsNotInSpace(trail[1..], pat);
    }
  }

  /** Whitespace after a text hides no occurrence of a pattern that ends with a non-space. */
  lemma {:induction false} ContainsBeforeSpace(z: string, trail: string, pat: string)
    requires AllSpace(trail) && pat != [] && Trimmed(pat)
    ensures Contains(z + trail, pat) <==> Contains(z, pat)
    decreases |z|
  {
    if z == [] {
      assert z + trail == trail;
      ContainsNotInSpace(trail, pat);
    } else {
      assert (z + trail)[1..] == z[1..] + trail;
      ContainsBeforeSpace(z[1..], trail, pat);
      StartsWithSlice(z + trail, pat);
      StartsWithSlice(z, pat);
      if |pat| <= |z| {
        assert (z + trail)[..|pat|] == z[..|pat|];
      } else if |pat| <= |z + trail| {
        assert (z + trail)[|pat| - 1] == trail[|pat| - 1 - |z|];
        assert !StartsWith(z + trail, pat);
      }
    }
  }

  /** `strip` neither creates nor destroys an occurrence of a pattern with non-space ends. */
  lemma ContainsStrip(s: string, pat: string)
    requires pat != [] && Trimmed(pat)
    ensures Contains(Strip(s), pat) <==> Contains(s, pat)
  {
    var lead, trail := StripSplit(s);
    assert s == lead + (Strip(s) + trail);
    ContainsAfterSpace(lead, Strip(s) + trail, pat);
    ContainsBeforeSpace(Strip(s), trail, pat);
  }

  // ---------------------------------------------------------------------
  // `split` and `join`

  /** A text without the separator is a single piece. */
  lemma {:induction false} SplitNoSep(a: string, c: char)
    requires c !in a
    ensures Split(a, c) == [a]
    decreases |a|
  {
    if a != [] {
      SplitNoSep(a[1..], c);
      assert [a[0]] + a[1..] == a;
    }
  }

  /** The first separator ends the first piece; the rest is split on its own. */
  lemma {:induction false} SplitAt(a: string, b: string, c: char)
    requires c !in a
    ensures Split(a + [c] + b, c) == [a] + Split(b, c)
    decreases |a|
  {
    var s := a + [c] + b;
    if a == [] {
      assert s[1..] == b;
    } else {
      assert s[1..] == a[1..] + [c] + b;
      SplitAt(a[1..], b, c);
      assert [a[0]] + a[1..] == a;
    }
  }

  /** A character of a piece is a character of the joined text. */
  lemma {:induction false} JoinKeeps(sep: string, parts: seq<string>, k: nat, x: char)
    requires k < |parts| && x in parts[k]
    ensures x in Join(sep, parts)
    decreases |parts|
  {
    if k > 0 {
      JoinKeeps(sep, parts[1..], k - 1, x);
    }
  }

  /** Every character of a joined text comes from the separator or from a piece. */
  lemma {:induction false} JoinChars(sep: string, parts: seq<string>, x: char)
    requires x in Join(sep, parts)
    ensures x in sep || exists k :: 0 <= k < |parts| && x in parts[k]
    decreases |parts|
  {
    if |parts| > 1 && x !in parts[0] && x !in sep {
      JoinChars(sep, parts[1..], x);
      var k :| 0 <= k < |parts[1..]| && x in parts[1..][k];
      assert x in parts[k + 1];
    }
  }

  /** A piece of `split` holds only characters of the split text. */
  lemma SplitKeeps(s: string, c: char, k: nat, x: char)
    requires k < |Split(s, c)| && x in Split(s, c)[k]
    ensures x in s
  {
    JoinKeeps([c], Split(s, c), k, x);
  }
}
