/**
 Families of worked examples of the signature normalisation. Each family
 fixes the punctuation of a parameter list and leaves the identifiers and
 types free: any words that hold no space, newline, `:`, `,` or `)`.
 The small lemmas compute one stage on one piece; the example lemmas put
 the pieces together through the staged form of `Normalise`.
 */
module SignatureExamples {
  import opened PyStr
  import opened Signature

  /** An identifier or a simple type: no layout and none of the punctuation the rewrites look at. */
  predicate Plain(w: string) {
    forall i :: 0 <= i < |w| ==> w[i] != ' ' && w[i] != '\n' && w[i] != ':' && w[i] != ',' && w[i] != ')'
  }

  /** A text whose cleaned form, closed, then spaced, is a trimmed `r` normalises to `r`. */
  lemma NormaliseVia(p: string, closed: string, r: string)
    requires ReplaceAll(Clean(p), ",)", ")") == closed
    requires SpaceAfterPunct(closed) == r && Trimmed(r)
    ensures Normalise(p) == r
  {
    NormaliseStages(p);
    assert [] + r + [] == r;
    StripFramed([], r, []);
  }

  lemma CleanNoLayout(w: string)
    requires ' ' !in w && '\n' !in w
    ensures Clean(w) == w
  {
    RemoveAbsent(w, '\n');
    RemoveAbsent(w, ' ');
  }

  lemma CleanConcat4(a: string, b: string, c: string, d: string)
    ensures Clean(a + b + c + d) == Clean(a) + Clean(b) + Clean(c) + Clean(d)
  {
    CleanConcat(a + b + c, d);
    CleanConcat(a + b, c);
    CleanConcat(a, b);
  }

  lemma SpaceAfterPunctConcat4(a: string, b: string, c: string, d: string)
    ensures SpaceAfterPunct(a + b + c + d)
         == SpaceAfterPunct(a) + SpaceAfterPunct(b) + SpaceAfterPunct(c) + SpaceAfterPunct(d)
  {
    SpaceAfterPunctConcat(a + b + c, d);
    SpaceAfterPunctConcat(a + b, c);
    SpaceAfterPunctConcat(a, b);
  }

  lemma {:induction false} SpaceAfterPunctPlain(w: string)
    requires Plain(w)
    ensures SpaceAfterPunct(w) == w
    decreases |w|
  {
    if w != [] {
      assert Plain(w[1..]) by {
        forall i | 0 <= i < |w[1..]|
          ensures w[1..][i] == w[i + 1]
        {
        }
      }
      SpaceAfterPunctPlain(w[1..]);
      assert [w[0]] + w[1..] == w;
    }
  }

  // ---------------------------------------------------------------------
  // The stages on the fixed punctuation

  lemma CleanLineBreak()
    ensures Clean(",\n ") == ","
  {
  }

  lemma CleanClosing()
    ensures Clean(",)") == ",)"
  {
  }

  lemma CleanSpacedClosing()
    ensures Clean(", )") == ",)"
  {
  }

  lemma CleanSpace()
    ensures Clean(" ") == []
  {
  }

  lemma CloseClosing()
    ensures ReplaceAll(",)", ",)", ")") == ")"
  {
  }

  lemma CloseDoubled()
    ensures ReplaceAll(",,)", ",)", ")") == ",)"
  {
    assert !StartsWith(",,)", ",)");
    ReplaceAllStep(",,)", ",)", ")");
    assert ",,)"[1..] == ",)";
    CloseClosing();
  }

  lemma SpacePunctuation()
    ensures SpaceAfterPunct("(") == "("
    ensures SpaceAfterPunct(")") == ")"
    ensures SpaceAfterPunct(":") == ": "
    ensures SpaceAfterPunct(",") == ", "
  {
  }

  lemma SpacePath()
    ensures SpaceAfterPunct("::") == ": : "
  {
  }

  // ---------------------------------------------------------------------
  // Bindings `name:type`

  /** `name:type` is spaced as `name: type`. */
  lemma SpacedBinding(x: string, t: string)
    requires Plain(x) && Plain(t)
    ensures SpaceAfterPunct(x + ":" + t) == x + ": " + t
  {
    SpaceAfterPunctConcat(x + ":", t);
    SpaceAfterPunctConcat(x, ":");
    SpaceAfterPunctPlain(x);
    SpaceAfterPunctPlain(t);
    SpacePunctuation();
  }

  lemma OpenAssoc(x: string, t: string)
    ensures "(" + x + ":" + t == "(" + (x + ":" + t)
    ensures "(" + x + ": " + t == "(" + (x + ": " + t)
  {
  }

  /** The first binding, with the opening parenthesis. */
  lemma SpacedOpening(x: string, t: string)
    requires Plain(x) && Plain(t)
    ensures SpaceAfterPunct("(" + x + ":" + t) == "(" + x + ": " + t
  {
    OpenAssoc(x, t);
    SpaceAfterPunctConcat("(", x + ":" + t);
    SpacedBinding(x, t);
    SpacePunctuation();
  }

  lemma OpeningHasNoComma(x: string, t: string)
    requires Plain(x) && Plain(t)
    ensures ',' !in "(" + x + ":" + t && ' ' !in "(" + x + ":" + t && '\n' !in "(" + x + ":" + t
  {
  }

  // ---------------------------------------------------------------------
  // Two parameters over two lines with a trailing comma

  lemma LayoutCleaned(a: string, b: string)
    requires ' ' !in a && '\n' !in a && ' ' !in b && '\n' !in b
    ensures Clean(a + ",\n " + b + ",)") == a + "," + b + ",)"
  {
    CleanConcat4(a, ",\n ", b, ",)");
    CleanNoLayout(a);
    CleanNoLayout(b);
    CleanLineBreak();
    CleanClosing();
  }

  /** The closing `,)` of a list becomes `)`. */
  lemma ClosedLast(b: string)
    requires ',' !in b
    ensures ReplaceAll(b + ",)", ",)", ")") == b + ")"
  {
    ReplaceAllPlain(b, ",)", ",)", ")");
    CloseClosing();
  }

  /** A separating `,` is kept: it is not followed by `)`. */
  lemma ClosedTail(b: string)
    requires ',' !in b && b != [] && b[0] != ')'
    ensures ReplaceAll("," + (b + ",)"), ",)", ")") == "," + (b + ")")
  {
    var rest := "," + (b + ",)");
    assert rest[1] == b[0];
    ReplaceAllStep(rest, ",)", ")");
    assert rest[1..] == b + ",)";
    ClosedLast(b);
  }

  lemma LayoutAssoc(a: string, b: string)
    ensures a + "," + b + ",)" == a + ("," + (b + ",)"))
    ensures a + "," + b + ")" == a + ("," + (b + ")"))
  {
  }

  lemma LayoutClosed(a: string, b: string)
    requires ',' !in a && ',' !in b && b != [] && b[0] != ')'
    ensures ReplaceAll(a + "," + b + ",)", ",)", ")") == a + "," + b + ")"
  {
    LayoutAssoc(a, b);
    ReplaceAllPlain(a, "," + (b + ",)"), ",)", ")");
    ClosedTail(b);
  }

  lemma LayoutSpaced(a: string, b: string)
    ensures SpaceAfterPunct(a + "," + b + ")") == SpaceAfterPunct(a) + ", " + SpaceAfterPunct(b) + ")"
  {
    SpaceAfterPunctConcat4(a, ",", b, ")");
    SpacePunctuation();
  }

  lemma LayoutShape(x: string, t: string, y: string, u: string)
    ensures "(" + x + ":" + t + ",\n " + y + ":" + u + ",)"
         == ("(" + x + ":" + t) + ",\n " + (y + ":" + u) + ",)"
    ensures "(" + x + ": " + t + ", " + y + ": " + u + ")"
         == ("(" + x + ": " + t) + ", " + (y + ": " + u) + ")"
  {
  }

  lemma LayoutStages(x: string, t: string, y: string, u: string)
    requires Plain(x) && Plain(t) && Plain(y) && Plain(u)
    ensures ReplaceAll(Clean(("(" + x + ":" + t) + ",\n " + (y + ":" + u) + ",)"), ",)", ")")
         == ("(" + x + ":" + t) + "," + (y + ":" + u) + ")"
  {
    var a := "(" + x + ":" + t;
    var b := y + ":" + u;
    OpeningHasNoComma(x, t);
    assert b[0] == if y == [] then ':' else y[0];
    LayoutCleaned(a, b);
    LayoutClosed(a, b);
  }

  lemma LayoutSpacedAll(x: string, t: string, y: string, u: string)
    requires Plain(x) && Plain(t) && Plain(y) && Plain(u)
    ensures SpaceAfterPunct(("(" + x + ":" + t) + "," + (y + ":" + u) + ")")
         == ("(" + x + ": " + t) + ", " + (y + ": " + u) + ")"
  {
    LayoutSpaced("(" + x + ":" + t, y + ":" + u);
    SpacedOpening(x, t);
    SpacedBinding(y, u);
  }

  /**
   A two-parameter list written over two lines with a trailing comma:
   the line break and the trailing comma disappear, and each `:` and `,`
   gets one space after it.
   */
  lemma NormaliseLayoutExample(x: string, t: string, y: string, u: string)
    requires Plain(x) && Plain(t) && Plain(y) && Plain(u)
    ensures Normalise("(" + x + ":" + t + ",\n " + y + ":" + u + ",)")
         == "(" + x + ": " + t + ", " + y + ": " + u + ")"
  {
    LayoutShape(x, t, y, u);
    LayoutStages(x, t, y, u);
    LayoutSpacedAll(x, t, y, u);
    var r := ("(" + x + ": " + t) + ", " + (y + ": " + u) + ")";
    assert r[0] == '(' && r[|r| - 1] == ')';
    NormaliseVia(("(" + x + ":" + t) + ",\n " + (y + ":" + u) + ",)", ("(" + x + ":" + t) + "," + (y + ":" + u) + ")", r);
  }

  // ---------------------------------------------------------------------
  // A path type: `::` is spaced like two separate colons

  lemma PathShape(x: string, m: string, t: string)
    ensures "(" + x + ":" + m + "::" + t + ")" == ("(" + x + ":" + m) + "::" + t + ")"
    ensures "(" + x + ": " + m + ": : " + t + ")" == ("(" + x + ": " + m) + ": : " + t + ")"
  {
  }

  lemma PathSpaced(x: string, m: string, t: string)
    requires Plain(x) && Plain(m) && Plain(t)
    ensures SpaceAfterPunct(("(" + x + ":" + m) + "::" + t + ")") == ("(" + x + ": " + m) + ": : " + t + ")"
  {
    SpaceAfterPunctConcat4("(" + x + ":" + m, "::", t, ")");
    SpacedOpening(x, m);
    SpacePath();
    SpaceAfterPunctPlain(t);
    SpacePunctuation();
  }

  lemma PathClosed(p: string)
    requires ',' !in p && ' ' !in p && '\n' !in p
    ensures ReplaceAll(Clean(p), ",)", ")") == p
  {
    CleanNoLayout(p);
    NotContainsHead(p, ",)");
    ReplaceAllAbsent(p, ",)", ")");
  }

  /** In `name:module::Type` each colon of `::` gets its own space: `name: module: : Type`. */
  lemma NormalisePathExample(x: string, m: string, t: string)
    requires Plain(x) && Plain(m) && Plain(t)
    ensures Normalise("(" + x + ":" + m + "::" + t + ")") == "(" + x + ": " + m + ": : " + t + ")"
  {
    var p := "(" + x + ":" + m + "::" + t + ")";
    PathShape(x, m, t);
    OpeningHasNoComma(x, m);
    PathClosed(p);
    PathSpaced(x, m, t);
    NormaliseVia(p, p, "(" + x + ": " + m + ": : " + t + ")");
  }

  // ---------------------------------------------------------------------
  // A doubled trailing comma: one pass leaves `, )`, a second removes it

  lemma DoubledClosed(a: string)
    requires ',' !in a && ' ' !in a && '\n' !in a
    ensures ReplaceAll(Clean(a + ",,)"), ",)", ")") == a + ",)"
  {
    CleanNoLayout(a + ",,)");
    ReplaceAllPlain(a, ",,)", ",)", ")");
    CloseDoubled();
  }

  lemma DoubledSpaced(x: string, t: string)
    requires Plain(x) && Plain(t)
    ensures SpaceAfterPunct(("(" + x + ":" + t) + ",)") == "(" + x + ": " + t + ", )"
  {
    SpaceAfterPunctConcat4("(" + x + ":" + t, ",", ")", []);
    assert ("(" + x + ":" + t) + "," + ")" + [] == ("(" + x + ":" + t) + ",)";
    SpacedOpening(x, t);
    SpacePunctuation();
  }

  lemma DoubledShape(x: string, t: string)
    ensures "(" + x + ":" + t + ",,)" == ("(" + x + ":" + t) + ",,)"
  {
  }

  /** With two trailing commas only the last is dropped, and the first is spaced: `, )` remains. */
  lemma NormaliseDoubledCommaExample(x: string, t: string)
    requires Plain(x) && Plain(t)
    ensures Normalise("(" + x + ":" + t + ",,)") == "(" + x + ": " + t + ", )"
  {
    var a := "(" + x + ":" + t;
    DoubledShape(x, t);
    OpeningHasNoComma(x, t);
    DoubledClosed(a);
    DoubledSpaced(x, t);
    NormaliseVia(a + ",,)", a + ",)", "(" + x + ": " + t + ", )");
  }

  lemma GapShape(x: string, t: string)
    ensures "(" + x + ": " + t + ", )" == ("(" + x + ":") + " " + t + ", )"
  {
  }

  lemma GapJoin(o: string, t: string)
    ensures o + [] + t + ",)" == (o + t) + ",)"
  {
  }

  lemma GapCleaned(x: string, t: string)
    requires Plain(x) && Plain(t)
    ensures Clean(("(" + x + ":") + " " + t + ", )") == ("(" + x + ":" + t) + ",)"
  {
    CleanConcat4("(" + x + ":", " ", t, ", )");
    CleanNoLayout("(" + x + ":");
    CleanNoLayout(t);
    CleanSpace();
    CleanSpacedClosing();
    GapJoin("(" + x + ":", t);
  }

  lemma GapSpaced(x: string, t: string)
    requires Plain(x) && Plain(t)
    ensures SpaceAfterPunct(("(" + x + ":" + t) + ")") == "(" + x + ": " + t + ")"
  {
    SpaceAfterPunctConcat("(" + x + ":" + t, ")");
    SpacedOpening(x, t);
    SpacePunctuation();
  }

  /** A second pass over the `, )` left by a doubled comma removes the comma. */
  lemma NormaliseGapExample(x: string, t: string)
    requires Plain(x) && Plain(t)
    ensures Normalise("(" + x + ": " + t + ", )") == "(" + x + ": " + t + ")"
  {
    var a := "(" + x + ":" + t;
    GapShape(x, t);
    GapCleaned(x, t);
    OpeningHasNoComma(x, t);
    ClosedLast(a);
    GapSpaced(x, t);
    NormaliseVia("(" + x + ": " + t + ", )", a + ")", "(" + x + ": " + t + ")");
  }

  /** A single binding gains the space after its `:` and nothing else. */
  lemma NormaliseOneExample(x: string, t: string)
    requires Plain(x) && Plain(t)
    ensures Normalise("(" + x + ":" + t + ")") == "(" + x + ": " + t + ")"
  {
    var a := "(" + x + ":" + t;
    OpeningHasNoComma(x, t);
    assert "(" + x + ":" + t + ")" == a + ")";
    CleanNoLayout(a + ")");
    NotContainsHead(a + ")", ",)");
    ReplaceAllAbsent(a + ")", ",)", ")");
    GapSpaced(x, t);
    NormaliseVia(a + ")", a + ")", "(" + x + ": " + t + ")");
  }

  /** Normalising the result of a doubled comma again changes it, as the idempotence condition says. */
  lemma NormaliseNotIdempotentExample(x: string, t: string)
    requires Plain(x) && Plain(t)
    ensures Normalise(Normalise("(" + x + ":" + t + ",,)")) != Normalise("(" + x + ":" + t + ",,)")
  {
    NormaliseDoubledCommaExample(x, t);
    NormaliseGapExample(x, t);
    assert |"(" + x + ": " + t + ")"| < |"(" + x + ": " + t + ", )"|;
  }

  // ---------------------------------------------------------------------
  // The qualifier

  /** The captured `async ` becomes `async`; a missing or empty qualifier becomes `None`. */
  lemma MakeFunctionQualifierExample(name: string, parameters: string, returnType: Option<string>)
    ensures MakeFunction(Some("async "), name, parameters, returnType).asyncPref == Some("async")
    ensures MakeFunction(Some(""), name, parameters, returnType).asyncPref == None
    ensures MakeFunction(None, name, parameters, returnType).asyncPref == None
  {
    StripAsync();
  }
}
