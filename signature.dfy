/**
 The `Function` record of the converter and its constructor, which cleans
 up the four pieces the signature scan captured: the optional `async `
 qualifier, the name, the parenthesised parameter text and the optional
 return type. The parameter text is normalised by a fixed chain of string
 rewrites; the lemmas here say what that chain produces.
 */
module Signature {
  import opened PyStr

  /** One recovered `pub fn`: qualifier, name, normalised parameter text, return type. */
  datatype Function = Function(
    asyncPref: Option<string>,
    name: string,
    parameters: string,
    returnType: Option<string>)

  predicate IsPunct(c: char) {
    c == ':' || c == ','
  }

  /** `x.strip() if x else None`: a missing or empty capture becomes `None`. */
  function StripIfTruthy(o: Option<string>): (r: Option<string>)
    ensures r.Some? <==> Truthy(o)
    ensures r.Some? ==> Trimmed(r.value) && |r.value| <= |o.value|
  {
    if Truthy(o) then StripTrimmed(o.value); Some(Strip(o.value)) else None
  }

  /** The qualifier the scan captures, `async ` with its space, is kept as `async`. */
  lemma StripAsync()
    ensures Strip("async ") == "async"
  {
    assert [] + "async" + " " == "async ";
    StripFramed([], "async", " ");
  }

  /**
   The parameter normalisation of the constructor: drop newlines, drop
   every run of spaces, turn `,)` into `)`, put a space after every `:`,
   then after every `,`, and strip the ends.
   */
  function Normalise(parameters: string): string {
    var joined := ReplaceAll(parameters, "\n", "");
    var squeezed := SubSpaceRuns(joined);
    var closed := ReplaceAll(squeezed, ",)", ")");
    var colons := ReplaceAll(closed, ":", ": ");
    var commas := ReplaceAll(colons, ",", ", ");
    Strip(commas)
  }

  /** `Function.__init__`: strip the qualifier, the name and the return type, normalise the parameters. */
  function MakeFunction(asyncPref: Option<string>, name: string, parameters: string, returnType: Option<string>): (f: Function)
    ensures f.asyncPref.Some? <==> Truthy(asyncPref)
    ensures f.asyncPref.Some? ==> Trimmed(f.asyncPref.value)
    ensures Trimmed(f.name) && |f.name| <= |name|
    ensures '\n' !in f.parameters && WellSpaced(f.parameters) && Trimmed(f.parameters)
    ensures f.returnType.Some? <==> Truthy(returnType)
    ensures f.returnType.Some? ==> Trimmed(f.returnType.value)
  {
    StripTrimmed(name);
    NormaliseShape(parameters);
    Function(StripIfTruthy(asyncPref), Strip(name), Normalise(parameters), StripIfTruthy(returnType))
  }

  /**
   Each stripped field of a constructed `Function` is its captured text
   with only the surrounding whitespace taken off: the captured text is the
   field framed by whitespace.
   */
  lemma MakeFunctionFrames(asyncPref: Option<string>, name: string, parameters: string, returnType: Option<string>)
    returns (qualifier: Frame, nameFrame: Frame, returnFrame: Frame)
    ensures var f := MakeFunction(asyncPref, name, parameters, returnType);
      && Framed(name, f.name, nameFrame)
      && (f.asyncPref.Some? ==> Framed(asyncPref.value, f.asyncPref.value, qualifier))
      && (f.returnType.Some? ==> Framed(returnType.value, f.returnType.value, returnFrame))
  {
    nameFrame := StripFrame(name);
    qualifier := Frame([], []);
    returnFrame := Frame([], []);
    if Truthy(asyncPref) {
      qualifier := StripFrame(asyncPref.value);
    }
    if Truthy(returnType) {
      returnFrame := StripFrame(returnType.value);
    }
  }

  // ---------------------------------------------------------------------
  // Reference definitions

  /** The text with all newlines, then all spaces, deleted. */
  function Clean(s: string): (r: string)
    ensures ' ' !in r && '\n' !in r
  {
    Remove(Remove(s, '\n'), ' ')
  }

  /** A space after every `:` and every `,`. */
  function SpaceAfterPunct(s: string): string
    decreases |s|
  {
    if s == [] then []
    else (if s[0] == ':' || s[0] == ',' then [s[0], ' '] else [s[0]]) + SpaceAfterPunct(s[1..])
  }

  /**
   Every space comes directly after a `:` or a `,`, and every `:` or `,`
   except a final one is followed by a space. Together: each non-final
   `:` and `,` is followed by exactly one space, and there are no others.
   */
  predicate WellSpaced(x: string) {
    && (forall i :: 0 <= i < |x| && x[i] == ' ' ==> 0 < i && IsPunct(x[i - 1]))
    && (forall i :: 0 <= i < |x| - 1 && IsPunct(x[i]) ==> x[i + 1] == ' ')
  }

  // ---------------------------------------------------------------------
  // Lemmas about the helpers

  lemma {:induction false} SubstPunctIsSpaceAfterPunct(s: string)
    ensures Subst(Subst(s, ':', ": "), ',', ", ") == SpaceAfterPunct(s)
    decreases |s|
  {
    if s != [] {
      var h := if s[0] == ':' then ": " else [s[0]];
      SubstConcat(h, Subst(s[1..], ':', ": "), ',', ", ");
      SubstPunctIsSpaceAfterPunct(s[1..]);
      if s[0] == ':' {
        assert Subst(h, ',', ", ") == ": ";
      } else {
        assert Subst(h, ',', ", ") == (if s[0] == ',' then ", " else [s[0]]);
      }
    }
  }

  lemma {:induction false} SpaceAfterPunctHead(s: string)
    requires s != []
    ensures SpaceAfterPunct(s) != [] && SpaceAfterPunct(s)[0] == s[0]
  {
  }

  /** Inserting the spaces and deleting them again gives back a text that had none. */
  lemma {:induction false} RemoveSpaceAfterPunct(u: string)
    requires ' ' !in u
    ensures Remove(SpaceAfterPunct(u), ' ') == u
    decreases |u|
  {
    if u != [] {
      var h := if IsPunct(u[0]) then [u[0], ' '] else [u[0]];
      RemoveConcat(h, SpaceAfterPunct(u[1..]), ' ');
      RemoveSpaceAfterPunct(u[1..]);
      assert Remove(h, ' ') == [u[0]];
    }
  }

  lemma {:induction false} SpaceAfterPunctKeepsAbsent(u: string, c: char)
    requires c != ' ' && c !in u
    ensures c !in SpaceAfterPunct(u)
    decreases |u|
  {
    if u != [] {
      SpaceAfterPunctKeepsAbsent(u[1..], c);
    }
  }

  /** Spacing a text without spaces leaves it well spaced. */
  lemma {:induction false} SpaceAfterPunctWellSpaced(u: string)
    requires ' ' !in u
    ensures WellSpaced(SpaceAfterPunct(u))
    decreases |u|
  {
    if u != [] {
      var h := if IsPunct(u[0]) then [u[0], ' '] else [u[0]];
      var rest := SpaceAfterPunct(u[1..]);
      var x := h + rest;
      SpaceAfterPunctWellSpaced(u[1..]);
      if u[1..] != [] {
        SpaceAfterPunctHead(u[1..]);
        assert u[1] in u;
      }
      forall i | 0 <= i < |x| && x[i] == ' '
        ensures 0 < i && IsPunct(x[i - 1])
      {
        if i >= |h| {
          assert rest[i - |h|] == ' ';
        }
      }
      forall i | 0 <= i < |x| - 1 && IsPunct(x[i])
        ensures x[i + 1] == ' '
      {
        if i >= |h| {
          assert rest[i - |h|] == x[i];
        }
      }
    }
  }

  /** A slice of a well-spaced text that does not start with whitespace is well spaced. */
  lemma WellSpacedSlice(x: string, k: nat, t: string)
    requires WellSpaced(x) && k + |t| <= |x| && t == x[k..k + |t|]
    requires t == [] || !IsSpace(t[0])
    ensures WellSpaced(t)
  {
    forall i | 0 <= i < |t| && t[i] == ' '
      ensures 0 < i && IsPunct(t[i - 1])
    {
      assert t[i] == x[k + i];
      assert IsSpace(t[i]);
      assert t[i - 1] == x[k + i - 1];
    }
    forall i | 0 <= i < |t| - 1 && IsPunct(t[i])
      ensures t[i + 1] == ' '
    {
      assert t[i] == x[k + i];
      assert t[i + 1] == x[k + i + 1];
    }
  }

  /** `strip` keeps a text well spaced. */
  lemma WellSpacedStrip(x: string)
    requires WellSpaced(x)
    ensures WellSpaced(Strip(x))
  {
    var lead, trail := StripSplit(x);
    var t := Strip(x);
    assert x == lead + t + trail;
    assert t == x[|lead|..|lead| + |t|];
    WellSpacedSlice(x, |lead|, t);
  }

  /** Behind a spaced `:` neither pattern can start. */
  lemma SpacedColon(rest: string, tail: string)
    requires Contains(rest, ", )") <==> Contains(tail, ",)")
    ensures Contains([':', ' '] + rest, ", )") <==> Contains([':'] + tail, ",)")
  {
    var x := [':', ' '] + rest;
    assert x[1..] == [' '] + rest;
    assert ([' '] + rest)[1..] == rest;
    assert ([':'] + tail)[1..] == tail;
  }

  /** Behind a spaced `,` the patterns start together: exactly when `)` follows. */
  lemma SpacedComma(rest: string, tail: string)
    requires StartsWith(rest, ")") <==> StartsWith(tail, ")")
    requires Contains(rest, ", )") <==> Contains(tail, ",)")
    ensures Contains([',', ' '] + rest, ", )") <==> Contains([','] + tail, ",)")
  {
    var x := [',', ' '] + rest;
    assert x[1..] == [' '] + rest;
    assert ([' '] + rest)[1..] == rest;
    assert ([','] + tail)[1..] == tail;
    assert StartsWith(x, ", )") <==> StartsWith(rest, ")") by {
      if |rest| >= 1 {
        assert x[..3] == [',', ' ', rest[0]];
      }
    }
    assert StartsWith([','] + tail, ",)") <==> StartsWith(tail, ")") by {
      if |tail| >= 1 {
        assert ([','] + tail)[..2] == [',', tail[0]];
      }
    }
  }

  /** Behind any other character neither pattern can start. */
  lemma SpacedOther(c: char, rest: string, tail: string)
    requires !IsPunct(c)
    requires Contains(rest, ", )") <==> Contains(tail, ",)")
    ensures Contains([c] + rest, ", )") <==> Contains([c] + tail, ",)")
  {
    assert ([c] + rest)[1..] == rest;
    assert ([c] + tail)[1..] == tail;
  }

  /** An occurrence of `, )` in the spaced text is an occurrence of `,)` in the text before spacing. */
  lemma {:induction false} ContainsSpaceAfterPunct(m: string)
    ensures Contains(SpaceAfterPunct(m), ", )") <==> Contains(m, ",)")
    decreases |m|
  {
    if m != [] {
      var rest := SpaceAfterPunct(m[1..]);
      ContainsSpaceAfterPunct(m[1..]);
      if m[1..] != [] {
        SpaceAfterPunctHead(m[1..]);
      }
      assert StartsWith(rest, ")") <==> StartsWith(m[1..], ")");
      assert m == [m[0]] + m[1..];
      if m[0] == ',' {
        SpacedComma(rest, m[1..]);
      } else if m[0] == ':' {
        SpacedColon(rest, m[1..]);
      } else {
        SpacedOther(m[0], rest, m[1..]);
      }
    }
  }

  /** `replace(",)", ")")` deletes commas and nothing else. */
  lemma {:induction false} DropCommaOnlyCommas(x: string)
    ensures Remove(ReplaceAll(x, ",)", ")"), ',') == Remove(x, ',')
    decreases |x|
  {
    if |x| >= 2 && StartsWith(x, ",)") {
      StartsWithSlice(x, ",)");
      assert x == ",)" + x[2..];
      RemoveConcat(",)", x[2..], ',');
      RemoveConcat(")", ReplaceAll(x[2..], ",)", ")"), ',');
      DropCommaOnlyCommas(x[2..]);
    } else if x != [] {
      assert x == [x[0]] + x[1..];
      RemoveConcat([x[0]], x[1..], ',');
      RemoveConcat([x[0]], ReplaceAll(x[1..], ",)", ")"), ',');
      DropCommaOnlyCommas(x[1..]);
    }
  }

  // ---------------------------------------------------------------------
  // What the normalisation produces

  /**
   The chain of rewrites, read stage by stage: the text is cleaned of
   newlines and spaces, `,)` becomes `)`, a space goes after every `:` and
   `,`, and the ends are stripped.
   */
  lemma NormaliseStages(p: string)
    ensures Normalise(p) == Strip(SpaceAfterPunct(ReplaceAll(Clean(p), ",)", ")")))
  {
    ReplaceAllDelete(p, '\n');
    SubSpaceRunsIsRemove(Remove(p, '\n'));
    var closed := ReplaceAll(Clean(p), ",)", ")");
    ReplaceAllChar(closed, ':', ": ");
    ReplaceAllChar(Subst(closed, ':', ": "), ',', ", ");
    SubstPunctIsSpaceAfterPunct(closed);
  }

  /**
   The normalised text holds no newline, has no whitespace at either end,
   every space in it comes directly after a `:` or a `,`, and every `:`
   and `,` but a final one is followed by exactly one space.
   */
  lemma NormaliseShape(p: string)
    ensures '\n' !in Normalise(p)
    ensures Trimmed(Normalise(p))
    ensures WellSpaced(Normalise(p))
  {
    NormaliseStages(p);
    var closed := ReplaceAll(Clean(p), ",)", ")");
    ReplaceAllKeepsAbsent(Clean(p), ",)", ")", ' ');
    ReplaceAllKeepsAbsent(Clean(p), ",)", ")", '\n');
    var x := SpaceAfterPunct(closed);
    SpaceAfterPunctKeepsAbsent(closed, '\n');
    SpaceAfterPunctWellSpaced(closed);
    WellSpacedStrip(x);
    StripTrimmed(x);
    var lead, trail := StripSplit(x);
    assert x == lead + Strip(x) + trail;
  }

  /**
   Apart from the spaces it inserts, the normalised text is the cleaned
   text with `,)` turned into `)` and its ends stripped.
   */
  lemma NormaliseOnlyAddsSpaces(p: string)
    ensures Remove(Normalise(p), ' ') == Strip(ReplaceAll(Clean(p), ",)", ")"))
  {
    NormaliseStages(p);
    var closed := ReplaceAll(Clean(p), ",)", ")");
    ReplaceAllKeepsAbsent(Clean(p), ",)", ")", ' ');
    StripRemoveCommute(SpaceAfterPunct(closed), ' ');
    RemoveSpaceAfterPunct(closed);
  }

  lemma CleanConcat(a: string, b: string)
    ensures Clean(a + b) == Clean(a) + Clean(b)
  {
    RemoveConcat(a, b, '\n');
    RemoveConcat(Remove(a, '\n'), Remove(b, '\n'), ' ');
  }

  lemma CleanIdempotent(p: string)
    ensures Clean(Clean(p)) == Clean(p)
  {
    var c := Clean(p);
    RemoveAbsent(c, '\n');
    RemoveAbsent(c, ' ');
  }

  /**
   Newlines and spaces in the captured text do not matter: deleting all of
   them first gives the same normalised text, so a parameter list spread
   over several lines normalises like its one-line form.
   */
  lemma NormaliseIgnoresLayout(p: string)
    ensures Normalise(Clean(p)) == Normalise(p)
  {
    NormaliseStages(p);
    NormaliseStages(Clean(p));
    CleanIdempotent(p);
  }

  lemma {:induction false} SpaceAfterPunctConcat(a: string, b: string)
    ensures SpaceAfterPunct(a + b) == SpaceAfterPunct(a) + SpaceAfterPunct(b)
    decreases |a|
  {
    if a == [] {
      assert a + b == b;
    } else {
      assert (a + b)[0] == a[0];
      assert (a + b)[1..] == a[1..] + b;
      SpaceAfterPunctConcat(a[1..], b);
    }
  }

  lemma {:induction false} SpaceAfterPunctOfSpace(s: string)
    requires AllSpace(s)
    ensures SpaceAfterPunct(s) == s
    decreases |s|
  {
    if s != [] {
      assert IsSpace(s[0]);
      assert s[0] != ':' && s[0] != ',';
      assert AllSpace(s[1..]) by {
        forall i | 0 <= i < |s[1..]|
          ensures IsSpace(s[1..][i])
        {
          assert s[1..][i] == s[i + 1];
        }
      }
      SpaceAfterPunctOfSpace(s[1..]);
      assert [s[0]] + s[1..] == s;
    }
  }

  /** Spacing and stripping a text gives what spacing and stripping its stripped form gives. */
  lemma StripSpaceAfterPunct(u: string)
    ensures Strip(SpaceAfterPunct(u)) == Strip(SpaceAfterPunct(Strip(u)))
  {
    var lead, trail := StripSplit(u);
    var m := Strip(u);
    SpaceAfterPunctConcat(lead + m, trail);
    SpaceAfterPunctConcat(lead, m);
    SpaceAfterPunctOfSpace(lead);
    SpaceAfterPunctOfSpace(trail);
    StripIgnoresFrame(lead, SpaceAfterPunct(m), trail);
  }

  /** Cleaning a normalised text undoes the inserted spaces: what is left is the stripped, closed text. */
  lemma CleanOfNormalise(p: string)
    ensures Clean(Normalise(p)) == Strip(ReplaceAll(Clean(p), ",)", ")"))
  {
    NormaliseShape(p);
    RemoveAbsent(Normalise(p), '\n');
    NormaliseOnlyAddsSpaces(p);
  }

  /** A normalised text is the spaced and stripped form of its own cleaned text. */
  lemma NormaliseRespaces(p: string)
    ensures Normalise(p) == Strip(SpaceAfterPunct(Clean(Normalise(p))))
  {
    NormaliseStages(p);
    StripSpaceAfterPunct(ReplaceAll(Clean(p), ",)", ")"));
    CleanOfNormalise(p);
  }

  /** The spaced and stripped form of a text holds `, )` exactly where the text holds `,)`. */
  lemma GapOfRespaced(m: string)
    ensures Contains(Strip(SpaceAfterPunct(m)), ", )") <==> Contains(m, ",)")
  {
    assert Trimmed(", )");
    ContainsStrip(SpaceAfterPunct(m), ", )");
    ContainsSpaceAfterPunct(m);
  }

  /** A normalised text whose cleaned form still holds `,)` is changed by a further pass. */
  lemma RenormaliseChanges(p: string)
    requires Contains(Clean(Normalise(p)), ",)")
    ensures |Remove(Normalise(Normalise(p)), ' ')| < |Remove(Normalise(p), ' ')|
    ensures Normalise(Normalise(p)) != Normalise(p)
  {
    var t := Normalise(p);
    var m := Clean(t);
    ReplaceAllShrinks(m, ",)", ")");
    NormaliseOnlyAddsSpaces(t);
    StripTrimmed(ReplaceAll(m, ",)", ")"));
    NormaliseShape(p);
    RemoveAbsent(t, '\n');
    assert |Remove(Normalise(t), ' ')| < |Remove(t, ' ')|;
  }

  /** Without `,)` in its cleaned form, a normalised text is left alone by a further pass. */
  lemma RenormaliseKeeps(p: string)
    requires !Contains(Clean(Normalise(p)), ",)")
    ensures Normalise(Normalise(p)) == Normalise(p)
  {
    var t := Normalise(p);
    var m := Clean(t);
    NormaliseStages(t);
    ReplaceAllAbsent(m, ",)", ")");
    NormaliseRespaces(p);
  }

  /**
   Normalising an already normalised text changes it exactly when the text
   still holds `, )`, which is what a doubled trailing comma leaves after
   one pass.
   */
  lemma NormaliseIdempotentIff(p: string)
    ensures Normalise(Normalise(p)) == Normalise(p) <==> !Contains(Normalise(p), ", )")
  {
    var t := Normalise(p);
    var m := Clean(t);
    NormaliseRespaces(p);
    GapOfRespaced(m);
    if Contains(m, ",)") {
      RenormaliseChanges(p);
    } else {
      RenormaliseKeeps(p);
    }
  }
}
