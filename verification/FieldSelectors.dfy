/** Field selectors (pkg/fields): matching, printing, parsing and transforming. */
module FieldSelectors {
  import opened Sorting
  import opened Text
  import opened Wrappers

  type FieldSet = map<string, string>

  function Get(ls: FieldSet, field: string): string {
    if field in ls then ls[field] else ""
  }

  datatype Selector = Has(field: string, value: string) | NotHas(field: string, value: string) | And(terms: seq<Selector>)

  predicate Matches(s: Selector, ls: FieldSet) {
    match s
    case Has(f, v) => Get(ls, f) == v
    case NotHas(f, v) => Get(ls, f) != v
    case And(terms) => forall i :: 0 <= i < |terms| ==> Matches(terms[i], ls)
  }

  predicate Empty(s: Selector) {
    s.And? && forall i :: 0 <= i < |s.terms| ==> Empty(s.terms[i])
  }

  function RequiresExactMatch(s: Selector, field: string): Option<string> {
    match s
    case Has(f, v) => if f == field then Some(v) else None
    case NotHas(_, _) => None
    case And(terms) => FirstExactMatch(terms, field)
  }

  function FirstExactMatch(terms: seq<Selector>, field: string): Option<string> {
    if terms == [] then None
    else
      var first := RequiresExactMatch(terms[0], field);
      if first.Some? then first else FirstExactMatch(terms[1..], field)
  }

  type TransformFunc = (string, string) -> Option<(string, string)>

  function Transform(s: Selector, fn: TransformFunc): Option<Selector> {
    match s
    case Has(f, v) => var r := fn(f, v); if r.None? then None else Some(Has(r.value.0, r.value.1))
    case NotHas(f, v) => var r := fn(f, v); if r.None? then None else Some(NotHas(r.value.0, r.value.1))
    case And(terms) => var r := TransformAll(terms, fn); if r.None? then None else Some(And(r.value))
  }

  function TransformAll(terms: seq<Selector>, fn: TransformFunc): Option<seq<Selector>> {
    if terms == [] then Some([])
    else
      var n := Transform(terms[0], fn);
      if n.None? then None
      else
        var rest := TransformAll(terms[1..], fn);
        if rest.None? then None else Some([n.value] + rest.value)
  }

  function String(s: Selector): string {
    match s
    case Has(f, v) => f + "=" + v
    case NotHas(f, v) => f + "!=" + v
    case And(terms) => Join(Strings(terms), ",")
  }

  function Strings(terms: seq<Selector>): (ss: seq<string>)
    ensures |ss| == |terms|
  {
    if terms == [] then [] else [String(terms[0])] + Strings(terms[1..])
  }

  // ---- Parsing ----

  function Try(piece: string, op: string): Option<(string, string)>
    requires op != []
  {
    var pieces := Split(piece, op);
    if |pieces| == 2 then Some((pieces[0], pieces[1])) else None
  }

  function ParseTerm(part: string): Option<Selector> {
    var ne, eqeq, eq := Try(part, "!="), Try(part, "=="), Try(part, "=");
    if ne.Some? then Some(NotHas(ne.value.0, ne.value.1))
    else if eqeq.Some? then Some(Has(eqeq.value.0, eqeq.value.1))
    else if eq.Some? then Some(Has(eq.value.0, eq.value.1))
    else None
  }

  /** The terms of the non-empty parts, in order, or None if one cannot be understood. */
  function ParseParts(parts: seq<string>): Option<seq<Selector>> {
    if parts == [] then Some([])
    else
      var before := ParseParts(parts[..|parts| - 1]);
      var part := parts[|parts| - 1];
      if before.None? || part == "" then before
      else
        var term := ParseTerm(part);
        if term.None? then None else Some(before.value + [term.value])
  }

  function Assemble(items: seq<Selector>): Selector {
    if |items| == 1 then items[0] else And(items)
  }

  function Parse(selector: string, fn: TransformFunc): Option<Selector> {
    var items := ParseParts(SortStrings(Split(selector, ",")));
    if items.None? then None else Transform(Assemble(items.value), fn)
  }

  function Keep(field: string, value: string): Option<(string, string)> { Some((field, value)) }

  function ParseSelector(selector: string): Option<Selector> { Parse(selector, Keep) }

  /** The parser's loop over the sorted parts. */
  method ParseAndTransformSelector(selector: string, fn: TransformFunc) returns (r: Option<Selector>)
    ensures r == Parse(selector, fn)
  {
    hide SortStrings, Split, ParseTerm, Transform;
    var parts := SortStrings(Split(selector, ","));
    var items: seq<Selector> := [];
    for i := 0 to |parts|
      invariant ParseParts(parts[..i]) == Some(items)
    {
      var part := parts[i];
      assert parts[..i + 1][..i] == parts[..i];
      if part == "" {
        continue;
      }
      var term := ParseTerm(part);
      if term.None? {
        FailureStays(parts, i + 1);
        return None;
      }
      items := items + [term.value];
    }
    assert parts[..|parts|] == parts;
    return Transform(Assemble(items), fn);
  }

  lemma {:induction false} FailureStays(parts: seq<string>, n: nat)
    requires n <= |parts| && ParseParts(parts[..n]).None?
    ensures ParseParts(parts).None?
    decreases |parts|
  {
    if n == |parts| {
      assert parts[..n] == parts;
    } else {
      assert parts[..|parts| - 1][..n] == parts[..n];
      FailureStays(parts[..|parts| - 1], n);
    }
  }

  // ---- Emptiness and exact matches ----

  /** A selector is empty exactly when it matches every field set. */
  lemma {:induction false} EmptyMatchesEverything(s: Selector)
    ensures Empty(s) <==> forall ls :: Matches(s, ls)
  {
    match s
    case Has(f, v) => assert !Matches(s, map[f := if v == "" then "x" else ""]);
    case NotHas(f, v) => assert !Matches(s, map[f := v]);
    case And(terms) =>
      forall i | 0 <= i < |terms| ensures Empty(terms[i]) <==> forall ls :: Matches(terms[i], ls) {
        EmptyMatchesEverything(terms[i]);
      }
      if !Empty(s) {
        var i :| 0 <= i < |terms| && !Empty(terms[i]);
        var ls :| !Matches(terms[i], ls);
        assert !Matches(s, ls);
      }
  }

  /** A reported exact match is the value of that field in everything the selector matches. */
  lemma {:induction false} ExactMatchIsRequired(s: Selector, field: string, ls: FieldSet)
    requires RequiresExactMatch(s, field).Some? && Matches(s, ls)
    ensures Get(ls, field) == RequiresExactMatch(s, field).value
    decreases s, 1
  {
    if s.And? { FirstExactMatchIsRequired(s.terms, field, ls); }
  }

  lemma {:induction false} FirstExactMatchIsRequired(terms: seq<Selector>, field: string, ls: FieldSet)
    requires FirstExactMatch(terms, field).Some? && forall i :: 0 <= i < |terms| ==> Matches(terms[i], ls)
    ensures Get(ls, field) == FirstExactMatch(terms, field).value
    decreases terms, 0
  {
    if RequiresExactMatch(terms[0], field).Some? {
      ExactMatchIsRequired(terms[0], field, ls);
    } else {
      FirstExactMatchIsRequired(terms[1..], field, ls);
    }
  }

  // ---- Transforming ----

  lemma {:induction false} KeepChangesNothing(s: Selector)
    ensures Transform(s, Keep) == Some(s)
    decreases s, 1
  {
    if s.And? { KeepChangesNone(s.terms); }
  }

  lemma {:induction false} KeepChangesNone(terms: seq<Selector>)
    ensures TransformAll(terms, Keep) == Some(terms)
    decreases terms, 0
  {
    if terms != [] {
      KeepChangesNothing(terms[0]);
      KeepChangesNone(terms[1..]);
      assert terms == [terms[0]] + terms[1..];
    }
  }

  /** Parsing with a transformation is parsing, then transforming. */
  lemma TransformAfterParsing(selector: string, fn: TransformFunc)
    ensures Parse(selector, fn)
            == if ParseSelector(selector).None? then None else Transform(ParseSelector(selector).value, fn)
  {
    var items := ParseParts(SortStrings(Split(selector, ",")));
    if items.Some? { KeepChangesNothing(Assemble(items.value)); }
  }

  // ---- What a list of parts means, in any order ----

  /** Every non-empty part can be understood. */
  predicate AllParse(parts: seq<string>) {
    forall p :: p in parts && p != "" ==> ParseTerm(p).Some?
  }

  /** The field set meets every part. */
  predicate MeetsAll(parts: seq<string>, ls: FieldSet) {
    forall p :: p in parts && p != "" && ParseTerm(p).Some? ==> Matches(ParseTerm(p).value, ls)
  }

  lemma {:induction false} PartsMeanTheirTerms(parts: seq<string>, ls: FieldSet)
    ensures ParseParts(parts).Some? <==> AllParse(parts)
    ensures ParseParts(parts).Some? ==> (Matches(And(ParseParts(parts).value), ls) <==> MeetsAll(parts, ls))
  {
    if parts != [] {
      hide ParseTerm, Matches;
      var front, part := parts[..|parts| - 1], parts[|parts| - 1];
      PartsMeanTheirTerms(front, ls);
      assert forall p :: p in parts <==> p in front || p == part;
      if AllParse(parts) && part != "" {
        AndAppend(ParseParts(front).value, ParseTerm(part).value, ls);
      }
    }
  }

  lemma AndAppend(items: seq<Selector>, item: Selector, ls: FieldSet)
    ensures Matches(And(items + [item]), ls) <==> Matches(And(items), ls) && Matches(item, ls)
  {
    var all := items + [item];
    assert all[|items|] == item && forall i :: 0 <= i < |items| ==> all[i] == items[i];
  }

  lemma AssembleMatches(items: seq<Selector>, ls: FieldSet)
    ensures Matches(Assemble(items), ls) <==> Matches(And(items), ls)
  {
  }

  /** A selector text is understood when all its parts are, and then matches what meets all of them. */
  lemma ParseMeans(parts: seq<string>, ls: FieldSet)
    requires |parts| >= 1 && Free(parts, ',')
    ensures var r := ParseSelector(Join(parts, ","));
            (r.Some? <==> AllParse(parts)) && (r.Some? ==> (Matches(r.value, ls) <==> MeetsAll(parts, ls)))
  {
    hide Split, Join, SortStrings, ParseTerm, Matches, Transform;
    SplitJoin(parts, ',');
    SortKeepsMembers(parts);
    PartsMeanTheirTerms(SortStrings(parts), ls);
    if ParseParts(SortStrings(parts)).Some? {
      var items := ParseParts(SortStrings(parts)).value;
      AssembleMatches(items, ls);
      KeepChangesNothing(Assemble(items));
    }
  }

  // ---- The printed form parses back ----

  /** The leaves whose text can be read back: a comma would separate, and the operator would be found elsewhere. */
  predicate PrintableLeaf(s: Selector)
    requires !s.And?
  {
    && ',' !in s.field && ',' !in s.value
    && match s
       case Has(f, v) => '=' !in f && '=' !in v && !HasSuffix(f, "!")
       case NotHas(f, v) => !Contains(f, "!=") && !Contains(v, "!=")
  }

  /** Every leaf can be read back, however deep. */
  predicate Printable(s: Selector) {
    match s
    case Has(f, v) => PrintableLeaf(s)
    case NotHas(f, v) => PrintableLeaf(s)
    case And(terms) => forall i :: 0 <= i < |terms| ==> Printable(terms[i])
  }

  lemma SplitAbsent(s: string, op: string)
    requires op != [] && !Contains(s, op)
    ensures Try(s, op) == None
  {
  }

  /** The two pieces of a term surround its only operator. */
  lemma TryMeans(s: string, op: string)
    requires op != [] && Try(s, op).Some?
    ensures var (x, y) := Try(s, op).value; s == x + op + y && !Contains(x, op) && !Contains(y, op)
  {
    hide Contains;
    var pieces := Split(s, op);
    assert pieces[0] in pieces && pieces[1] in pieces;
    assert pieces == [pieces[0], pieces[1]] && pieces[1..] == [pieces[1]];
    assert Join(pieces, op) == pieces[0] + op + pieces[1];
  }

  lemma EqualsParses(f: string, v: string)
    requires '=' !in f && '=' !in v && !HasSuffix(f, "!")
    ensures ParseTerm(f + "=" + v) == Some(Has(f, v))
  {
    hide Split, Index;
    var s := f + "=" + v;
    NoBangEquals(f, v);
    OneEquals(f, v);
    SplitJoin([f, v], '=');
    assert Join([f, v], "=") == s by { assert [f, v][1..] == [v]; }
    SplitAbsent(s, "!=");
    SplitAbsent(s, "==");
  }

  lemma NoBangEquals(f: string, v: string)
    requires '=' !in f && '=' !in v && !HasSuffix(f, "!")
    ensures !Contains(f + "=" + v, "!=")
  {
    var s := f + "=" + v;
    var i := Index(s, "!=");
    EndsInBang(f);
    if i >= 0 {
      CharOfOccurrence(s, "!=", i, 0);
      CharOfOccurrence(s, "!=", i, 1);
    }
  }

  lemma EndsInBang(f: string)
    ensures f != "" && f[|f| - 1] == '!' ==> HasSuffix(f, "!")
  {
  }

  lemma OneEquals(f: string, v: string)
    requires '=' !in f && '=' !in v
    ensures !Contains(f + "=" + v, "==")
  {
    var s := f + "=" + v;
    var i := Index(s, "==");
    if i >= 0 {
      CharOfOccurrence(s, "==", i, 0);
      CharOfOccurrence(s, "==", i, 1);
    }
  }

  lemma NotEqualsParses(f: string, v: string)
    requires !Contains(f, "!=") && !Contains(v, "!=")
    ensures ParseTerm(f + "!=" + v) == Some(NotHas(f, v))
  {
    var s := f + "!=" + v;
    FirstBangEquals(f, v);
    assert s[..|f|] == f && s[|f| + 2..] == v;
    assert Split(v, "!=") == [v];
    assert Split(s, "!=") == [f] + [v];
  }

  lemma FirstBangEquals(f: string, v: string)
    requires !Contains(f, "!=")
    ensures Index(f + "!=" + v, "!=") == |f|
  {
    var s := f + "!=" + v;
    assert s[|f|..] == "!=" + v;
    assert OccursAt(s, "!=", |f|);
    var i := Index(s, "!=");
    if i < |f| { OccursInFront(f, v, i); }
  }

  lemma OccursInFront(f: string, v: string, i: nat)
    requires i < |f| && OccursAt(f + "!=" + v, "!=", i)
    ensures OccursAt(f, "!=", i)
  {
    var s := f + "!=" + v;
    CharOfOccurrence(s, "!=", i, 0);
    CharOfOccurrence(s, "!=", i, 1);
    assert i + 1 < |f|;
    assert f[i..] == [f[i], f[i + 1]] + f[i + 2..];
  }

  /** Exactly the printable leaves, commas aside, are read back as themselves. */
  lemma ReadsItself(s: Selector)
    requires !s.And? && ParseTerm(String(s)) == Some(s) && ',' !in s.field && ',' !in s.value
    ensures PrintableLeaf(s)
  {
    hide Split, Contains;
    var text := String(s);
    if s.NotHas? {
      TryMeans(text, "!=");
    } else {
      assert |text| == |s.field| + |s.value| + 1;
      if Try(text, "==").Some? {
        TryMeans(text, "==");
      }
      assert Try(text, "!=").None? && Try(text, "=") == Some((s.field, s.value));
      TryMeans(text, "=");
      ContainsChar(s.field, '=');
      ContainsChar(s.value, '=');
      if HasSuffix(s.field, "!") {
        BangReadsAsNot(s.field, s.value);
      }
    }
  }

  lemma BangReadsAsNot(f: string, v: string)
    requires '=' !in f && '=' !in v && HasSuffix(f, "!")
    ensures Try(f + "=" + v, "!=").Some?
  {
    var g := f[..|f| - 1];
    assert f == g + "!";
    assert f + "=" + v == g + "!=" + v;
    NoEqualsNoOperator(g);
    NoEqualsNoOperator(v);
    FirstBangEquals(g, v);
    var s := g + "!=" + v;
    assert s[..|g|] == g && s[|g| + 2..] == v;
    assert Split(v, "!=") == [v];
    assert Split(s, "!=") == [g] + [v];
  }

  lemma NoEqualsNoOperator(s: string)
    requires '=' !in s
    ensures !Contains(s, "!=")
  {
    var i := Index(s, "!=");
    if i >= 0 { CharOfOccurrence(s, "!=", i, 1); }
  }

  /** Two different leaves are told apart by some field set. */
  lemma LeavesDiffer(a: Selector, b: Selector) returns (ls: FieldSet)
    requires !a.And? && !b.And? && a != b
    ensures Matches(a, ls) != Matches(b, ls)
  {
    if a.field != b.field {
      ls := map[a.field := if a.Has? then a.value else a.value + "x", b.field := if b.Has? then b.value + "x" else b.value];
    } else if a.Has? == b.Has? {
      ls := map[a.field := a.value];
    } else {
      ls := map[a.field := a.value + b.value + "x"];
      assert |a.value + b.value + "x"| > |a.value| && |a.value + b.value + "x"| > |b.value|;
    }
  }

  /** What is parsed from a text without commas mentions none. */
  lemma TermIsCommaFree(p: string)
    requires ',' !in p && ParseTerm(p).Some?
    ensures var t := ParseTerm(p).value; !t.And? && ',' !in t.field && ',' !in t.value
  {
    hide Try;
    if Try(p, "!=").Some? {
      TryMeans(p, "!=");
    } else if Try(p, "==").Some? {
      TryMeans(p, "==");
    } else {
      TryMeans(p, "=");
    }
  }

  /** The parsed form matches exactly the same field sets. */
  ghost predicate Survives(s: Selector) {
    var r := ParseSelector(String(s));
    r.Some? && forall ls :: Matches(r.value, ls) <==> Matches(s, ls)
  }

  lemma ValuesAreToldApart(s: Selector)
    requires !s.And?
    ensures Matches(s, map[s.field := s.value]) != Matches(s, map[s.field := s.value + ","])
  {
    assert |s.value + ","| > |s.value|;
  }

  lemma PartCannotTell(s: Selector, p: string)
    requires !s.And? && (',' in s.field || ',' in s.value) && ',' !in p && ParseTerm(p).Some?
    ensures var t := ParseTerm(p).value;
            Matches(t, map[s.field := s.value]) == Matches(t, map[s.field := s.value + ","])
  {
    hide ParseTerm;
    TermIsCommaFree(p);
  }

  /** With a comma, the parsed form cannot tell two values of the field apart that the leaf tells apart. */
  lemma CommasAreFatal(s: Selector)
    requires !s.And? && (',' in s.field || ',' in s.value)
    ensures !Survives(s)
  {
    hide Split, String, ParseSelector, ParseTerm, Matches;
    var parts := Split(String(s), ",");
    ValuesAreToldApart(s);
    SplitFree(String(s), ',');
    forall p | p in parts && p != "" && ParseTerm(p).Some?
      ensures Matches(ParseTerm(p).value, map[s.field := s.value]) == Matches(ParseTerm(p).value, map[s.field := s.value + ","])
    {
      PartCannotTell(s, p);
    }
    ParseMeans(parts, map[s.field := s.value]);
    ParseMeans(parts, map[s.field := s.value + ","]);
  }

  /** A leaf survives being printed and parsed if and only if it is printable. */
  lemma LeafSurvivesIffPrintable(s: Selector)
    requires !s.And?
    ensures Survives(s) <==> PrintableLeaf(s)
  {
    if ',' in s.field || ',' in s.value {
      CommasAreFatal(s);
    } else if Survives(s) {
      var text := String(s);
      LeafText(s);
      hide ParseTerm, ParseSelector, String, Contains;
      JoinOne(text, ",");
      ParseMeans([text], map[]);
      assert text in [text];
      TermIsCommaFree(text);
      var t := ParseTerm(text).value;
      if t != s {
        var ls := LeavesDiffer(t, s);
        ParseMeans([text], ls);
      }
      ReadsItself(s);
    } else if PrintableLeaf(s) {
      forall ls ensures ParseSelector(String(s)).Some? && (Matches(ParseSelector(String(s)).value, ls) <==> Matches(s, ls)) {
        PrintedFormParsesBack(s, ls);
      }
      PrintedFormParsesBack(s, map[]);
    }
  }

  lemma LeafText(s: Selector)
    requires !s.And? && ',' !in s.field && ',' !in s.value
    ensures ',' !in String(s) && String(s) != ""
  {
  }

  /** The parts a selector prints, separated by commas; an empty conjunction prints nothing. */
  function PrintedParts(s: Selector): (parts: seq<string>)
    ensures |parts| >= 1
    decreases s, 1
  {
    match s
    case Has(_, _) => [String(s)]
    case NotHas(_, _) => [String(s)]
    case And(terms) => if terms == [] then [""] else AllPrintedParts(terms)
  }

  function AllPrintedParts(terms: seq<Selector>): (parts: seq<string>)
    ensures terms != [] ==> |parts| >= 1
    decreases terms, 0
  {
    if terms == [] then [] else PrintedParts(terms[0]) + AllPrintedParts(terms[1..])
  }

  lemma {:induction false} PrintedPartsJoin(s: Selector)
    ensures Join(PrintedParts(s), ",") == String(s)
    decreases s, 1
  {
    if s.And? && s.terms != [] { AllPrintedPartsJoin(s.terms); }
  }

  lemma {:induction false} AllPrintedPartsJoin(terms: seq<Selector>)
    requires terms != []
    ensures Join(AllPrintedParts(terms), ",") == Join(Strings(terms), ",")
    decreases terms, 0
  {
    hide Join, String;
    PrintedPartsJoin(terms[0]);
    JoinOne(String(terms[0]), ",");
    if |terms| == 1 {
      assert AllPrintedParts(terms) == PrintedParts(terms[0]);
      assert Strings(terms) == [String(terms[0])];
    } else {
      AllPrintedPartsJoin(terms[1..]);
      JoinAppend(PrintedParts(terms[0]), AllPrintedParts(terms[1..]), ",");
      JoinAppend([String(terms[0])], Strings(terms[1..]), ",");
    }
  }

  lemma {:induction false} PrintedPartsMean(s: Selector, ls: FieldSet)
    requires Printable(s)
    ensures Free(PrintedParts(s), ',') && AllParse(PrintedParts(s))
    ensures MeetsAll(PrintedParts(s), ls) <==> Matches(s, ls)
    decreases s, 1
  {
    hide ParseTerm;
    match s
    case Has(f, v) => EqualsParses(f, v);
    case NotHas(f, v) => NotEqualsParses(f, v);
    case And(terms) => if terms != [] { AllPrintedPartsMean(terms, ls); }
  }

  lemma {:induction false} AllPrintedPartsMean(terms: seq<Selector>, ls: FieldSet)
    requires forall i :: 0 <= i < |terms| ==> Printable(terms[i])
    ensures Free(AllPrintedParts(terms), ',') && AllParse(AllPrintedParts(terms))
    ensures MeetsAll(AllPrintedParts(terms), ls) <==> forall i :: 0 <= i < |terms| ==> Matches(terms[i], ls)
    decreases terms, 0
  {
    hide ParseTerm, Matches, String;
    if terms != [] {
      var a, b := PrintedParts(terms[0]), AllPrintedParts(terms[1..]);
      PrintedPartsMean(terms[0], ls);
      AllPrintedPartsMean(terms[1..], ls);
      assert forall p :: p in a + b <==> p in a || p in b;
    }
  }

  /** Parsing the printed form of a selector succeeds and matches the same field sets. */
  lemma PrintedFormParsesBack(s: Selector, ls: FieldSet)
    requires Printable(s)
    ensures var r := ParseSelector(String(s)); r.Some? && (Matches(r.value, ls) <==> Matches(s, ls))
  {
    hide *;
    PrintedPartsJoin(s);
    PrintedPartsMean(s, ls);
    ParseMeans(PrintedParts(s), ls);
  }

  /** So a comma in a value is lost, an equals sign too, and a field that ends in `!` turns its term around. */
  lemma SomeLeavesAreLost()
    ensures !Survives(Has("a", "b,c")) && !Survives(Has("a", "b=c")) && !Survives(Has("a!", "b"))
  {
    LeafSurvivesIffPrintable(Has("a", "b,c"));
    LeafSurvivesIffPrintable(Has("a", "b=c"));
    LeafSurvivesIffPrintable(Has("a!", "b"));
    assert HasSuffix("a!", "!");
  }

  // ---- Sets ----

  /** The texts of a set's entries, one for each, in some order. */
  ghost predicate EntryTexts(ls: FieldSet, texts: seq<string>) {
    |texts| == |ls| && forall t :: t in texts <==> exists k :: k in ls && t == k + "=" + ls[k]
  }

  /** The sorted texts of the entries, joined; for printable entries, a selector of what agrees with the set. */
  method SetString(ls: FieldSet) returns (s: string)
    ensures exists texts :: EntryTexts(ls, texts) && Sorted(texts) && s == Join(texts, ",")
    ensures PrintableSet(ls) ==>
              ParseSelector(s).Some? && forall g :: Matches(ParseSelector(s).value, g) <==> AgreesWith(g, ls)
  {
    hide ParseSelector, Matches, AgreesWith, PrintableSet, Join, SortStrings, Sorted;
    var selector: seq<string> := [];
    var keys := ls.Keys;
    while keys != {}
      invariant keys <= ls.Keys && |selector| + |keys| == |ls|
      invariant forall t :: t in selector <==> exists k :: k in ls && k !in keys && t == k + "=" + ls[k]
    {
      var k :| k in keys;
      keys := keys - {k};
      selector := selector + [k + "=" + ls[k]];
    }
    SortKeepsMembers(selector);
    SortSorts(selector);
    assert EntryTexts(ls, SortStrings(selector));
    s := Join(SortStrings(selector), ",");
    if PrintableSet(ls) {
      PrintedSetParsesBack(ls, SortStrings(selector), map[]);
      forall g ensures ParseSelector(s).Some? && (Matches(ParseSelector(s).value, g) <==> AgreesWith(g, ls)) {
        PrintedSetParsesBack(ls, SortStrings(selector), g);
      }
    }
  }

  /** A selector that matches exactly the field sets that agree with `ls` where it has a field. */
  method SelectorFromSet(ls: FieldSet) returns (r: Selector)
    ensures forall g :: Matches(r, g) <==> AgreesWith(g, ls)
  {
    var items: seq<Selector> := [];
    var keys := ls.Keys;
    while keys != {}
      invariant keys <= ls.Keys
      invariant forall g :: Matches(And(items), g) <==> forall k :: k in ls && k !in keys ==> Get(g, k) == ls[k]
    {
      var k :| k in keys;
      forall g ensures Matches(And(items + [Has(k, ls[k])]), g) <==> Matches(And(items), g) && Get(g, k) == ls[k] {
        AndAppend(items, Has(k, ls[k]), g);
      }
      keys := keys - {k};
      items := items + [Has(k, ls[k])];
    }
    forall g ensures Matches(Assemble(items), g) <==> Matches(And(items), g) { AssembleMatches(items, g); }
    return Assemble(items);
  }

  predicate AgreesWith(g: FieldSet, ls: FieldSet) {
    forall k :: k in ls ==> Get(g, k) == ls[k]
  }

  predicate PrintableSet(ls: FieldSet) {
    forall k :: k in ls ==> PrintableLeaf(Has(k, ls[k]))
  }

  lemma EntryTextMeans(ls: FieldSet, k: string, g: FieldSet)
    requires PrintableSet(ls) && k in ls
    ensures var t := k + "=" + ls[k];
            ',' !in t && t != "" && ParseTerm(t).Some? && (Matches(ParseTerm(t).value, g) <==> Get(g, k) == ls[k])
  {
    hide ParseTerm;
    EqualsParses(k, ls[k]);
  }

  /** The texts of a printable set are parts that can be understood, and are met by what agrees with the set. */
  lemma EntryTextsMean(ls: FieldSet, texts: seq<string>, g: FieldSet)
    requires PrintableSet(ls) && EntryTexts(ls, texts)
    ensures Free(texts, ',') && AllParse(texts) && (MeetsAll(texts, g) <==> AgreesWith(g, ls))
  {
    hide ParseTerm, PrintableSet, Matches, Get;
    forall t | t in texts ensures ',' !in t && ParseTerm(t).Some? {
      var k :| k in ls && t == k + "=" + ls[k];
      EntryTextMeans(ls, k, g);
    }
    if AgreesWith(g, ls) {
      forall t | t in texts ensures Matches(ParseTerm(t).value, g) {
        var k :| k in ls && t == k + "=" + ls[k];
        EntryTextMeans(ls, k, g);
      }
    }
    if MeetsAll(texts, g) {
      forall k | k in ls ensures Get(g, k) == ls[k] {
        EntryTextMeans(ls, k, g);
        assert k + "=" + ls[k] in texts;
      }
    }
  }

  /** The printed form of a set parses, and matches what SelectorFromSet matches. */
  lemma PrintedSetParsesBack(ls: FieldSet, texts: seq<string>, g: FieldSet)
    requires PrintableSet(ls) && EntryTexts(ls, texts)
    ensures var r := ParseSelector(Join(texts, ",")); r.Some? && (Matches(r.value, g) <==> AgreesWith(g, ls))
  {
    hide ParseTerm, ParseSelector, Join, PrintableSet, Matches, AgreesWith, EntryTexts;
    EntryTextsMean(ls, texts, g);
    if texts == [] {
      JoinOfNothing();
      ParseMeans([""], g);
    } else {
      ParseMeans(texts, g);
    }
  }

  lemma JoinOfNothing()
    ensures Join([""], ",") == Join([], ",")
  {
  }
}
