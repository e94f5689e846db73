/** What selector texts mean (pkg/fields): which of them are understood, and what they and their transformations match,
    said of the text itself. */
module FieldSelectorTexts {
  import opened FieldSelectors
  import opened Sorting
  import opened Text
  import opened Wrappers

  // ---- One part ----

  /** `op` first occurs in `p` between `x` and `y`, and not again after that. */
  ghost predicate Divides(p: string, op: string, x: string, y: string)
    requires op != []
  {
    p == x + op + y && (forall i :: 0 <= i < |x| ==> !OccursAt(p, op, i)) && (forall i :: !OccursAt(y, op, i))
  }

  ghost predicate Divided(p: string, op: string)
    requires op != []
  {
    exists x, y :: Divides(p, op, x, y)
  }

  /** `!=` is looked for first, then `==`, then `=`. */
  ghost predicate Reads(p: string, field: string, value: string, negated: bool) {
    if Divided(p, "!=") then negated && Divides(p, "!=", field, value)
    else if Divided(p, "==") then !negated && Divides(p, "==", field, value)
    else !negated && Divides(p, "=", field, value)
  }

  function Term(field: string, value: string, negated: bool): Selector {
    if negated then NotHas(field, value) else Has(field, value)
  }

  lemma IndexIs(s: string, op: string, n: nat)
    requires op != [] && OccursAt(s, op, n) && forall i :: 0 <= i < n ==> !OccursAt(s, op, i)
    ensures Index(s, op) == n
  {
  }

  lemma OccursBetween(x: string, op: string, y: string)
    ensures OccursAt(x + op + y, op, |x|)
  {
    assert (x + op + y)[|x|..] == op + y;
  }

  lemma NowhereIff(y: string, op: string)
    requires op != []
    ensures (forall i :: !OccursAt(y, op, i)) <==> Index(y, op) < 0
  {
  }

  lemma TryIff(p: string, op: string, x: string, y: string)
    requires op != []
    ensures Try(p, op) == Some((x, y)) <==> Divides(p, op, x, y)
  {
    if Divides(p, op, x, y) {
      OccursBetween(x, op, y);
      IndexIs(p, op, |x|);
      NowhereIff(y, op);
      assert p[..|x|] == x && p[|x| + |op|..] == y;
      assert Split(y, op) == [y];
      assert Split(p, op) == [x] + [y];
    }
    if Try(p, op) == Some((x, y)) {
      var i := Index(p, op);
      assert i >= 0 && Split(p, op) == [p[..i]] + Split(p[i + |op|..], op);
      assert Split(p[i + |op|..], op) == [y];
      OneSplit(p[i + |op|..], op);
      NowhereIff(y, op);
      assert p[i..] == op + p[i..][|op|..];
    }
  }

  lemma OneSplit(s: string, op: string)
    requires op != [] && |Split(s, op)| == 1
    ensures Split(s, op) == [s] && Index(s, op) < 0
  {
  }

  lemma DividedIff(p: string, op: string)
    requires op != []
    ensures Try(p, op).Some? <==> Divided(p, op)
  {
    hide Try, Divides;
    if Try(p, op).Some? {
      TryIff(p, op, Try(p, op).value.0, Try(p, op).value.1);
    }
    if Divided(p, op) {
      var x, y :| Divides(p, op, x, y);
      TryIff(p, op, x, y);
    }
  }

  lemma ReadsIff(p: string, field: string, value: string, negated: bool)
    ensures ParseTerm(p) == Some(Term(field, value, negated)) <==> Reads(p, field, value, negated)
  {
    hide Try, Divides, Divided;
    DividedIff(p, "!=");
    DividedIff(p, "==");
    TryIff(p, "!=", field, value);
    TryIff(p, "==", field, value);
    TryIff(p, "=", field, value);
  }

  lemma TermsAreLeaves(p: string)
    requires ParseTerm(p).Some?
    ensures var t := ParseTerm(p).value; !t.And? && t == Term(t.field, t.value, t.NotHas?)
  {
  }

  // ---- What a transformed selector matches ----

  function Leaves(s: Selector): seq<Selector>
    decreases s, 1
  {
    if s.And? then AllLeaves(s.terms) else [s]
  }

  function AllLeaves(terms: seq<Selector>): seq<Selector>
    decreases terms, 0
  {
    if terms == [] then [] else Leaves(terms[0]) + AllLeaves(terms[1..])
  }

  lemma {:induction false} LeavesAreLeaves(s: Selector)
    ensures forall leaf :: leaf in Leaves(s) ==> !leaf.And?
    decreases s, 1
  {
    if s.And? { AllLeavesAreLeaves(s.terms); }
  }

  lemma {:induction false} AllLeavesAreLeaves(terms: seq<Selector>)
    ensures forall leaf :: leaf in AllLeaves(terms) ==> !leaf.And?
    decreases terms, 0
  {
    if terms != [] {
      LeavesAreLeaves(terms[0]);
      AllLeavesAreLeaves(terms[1..]);
    }
  }

  predicate Moves(fn: TransformFunc, leaf: Selector)
    requires !leaf.And?
  {
    fn(leaf.field, leaf.value).Some?
  }

  /** The field set has the moved value at the moved field, or has not, as the leaf asks. */
  predicate Meets(fn: TransformFunc, leaf: Selector, ls: FieldSet)
    requires !leaf.And? && Moves(fn, leaf)
  {
    var to := fn(leaf.field, leaf.value).value; Get(ls, to.0) == to.1 <==> leaf.Has?
  }

  predicate LeafMoves(fn: TransformFunc, leaf: Selector) { !leaf.And? && Moves(fn, leaf) }

  predicate LeafMeets(fn: TransformFunc, leaf: Selector, ls: FieldSet) { LeafMoves(fn, leaf) && Meets(fn, leaf, ls) }

  /** A transformation succeeds when it does on every leaf, and then matches what meets every leaf where it was moved. */
  lemma {:induction false} TransformMeans(s: Selector, fn: TransformFunc, ls: FieldSet)
    ensures var r := Transform(s, fn);
            && (r.Some? <==> forall leaf :: leaf in Leaves(s) ==> LeafMoves(fn, leaf))
            && (r.Some? ==> (Matches(r.value, ls) <==> forall leaf :: leaf in Leaves(s) ==> LeafMeets(fn, leaf, ls)))
    decreases s, 1
  {
    if s.And? {
      TransformAllMeans(s.terms, fn, ls);
    } else {
      assert s in Leaves(s);
    }
  }

  lemma {:induction false} TransformAllMeans(terms: seq<Selector>, fn: TransformFunc, ls: FieldSet)
    ensures var r := TransformAll(terms, fn);
            && (r.Some? <==> forall leaf :: leaf in AllLeaves(terms) ==> LeafMoves(fn, leaf))
            && (r.Some? ==>
                  (Matches(And(r.value), ls) <==> forall leaf :: leaf in AllLeaves(terms) ==> LeafMeets(fn, leaf, ls)))
    decreases terms, 0
  {
    hide LeafMoves, LeafMeets;
    if terms != [] {
      TransformMeans(terms[0], fn, ls);
      TransformAllMeans(terms[1..], fn, ls);
      assert forall leaf :: leaf in AllLeaves(terms) <==> leaf in Leaves(terms[0]) || leaf in AllLeaves(terms[1..]);
      var r, rest := Transform(terms[0], fn), TransformAll(terms[1..], fn);
      if r.Some? && rest.Some? { AndPrepend(r.value, rest.value, ls); }
    }
  }

  lemma AndPrepend(item: Selector, items: seq<Selector>, ls: FieldSet)
    ensures Matches(And([item] + items), ls) <==> Matches(item, ls) && Matches(And(items), ls)
  {
    var all := [item] + items;
    assert all[0] == item && forall i :: 0 <= i < |items| ==> all[i + 1] == items[i];
    if Matches(And(all), ls) {
      forall i | 0 <= i < |items| ensures Matches(items[i], ls) { assert Matches(all[i + 1], ls); }
    }
  }

  // ---- Whole selectors ----

  /** The part is blank, or reads as a term that the transformation accepts. */
  ghost predicate IsUnderstood(p: string, fn: TransformFunc) {
    p == "" || exists f, v, negated :: Reads(p, f, v, negated) && fn(f, v).Some?
  }

  /** Read and transformed, the part asks for the value that the field set has, or for another. */
  ghost predicate IsMet(p: string, fn: TransformFunc, ls: FieldSet) {
    forall f, v, negated :: p != "" && Reads(p, f, v, negated) && fn(f, v).Some? ==>
      (Get(ls, fn(f, v).value.0) == fn(f, v).value.1 <==> !negated)
  }

  lemma PartMeans(p: string, fn: TransformFunc, ls: FieldSet)
    requires p != ""
    ensures IsUnderstood(p, fn) <==> ParseTerm(p).Some? && LeafMoves(fn, ParseTerm(p).value)
    ensures IsUnderstood(p, fn) ==> (IsMet(p, fn, ls) <==> LeafMeets(fn, ParseTerm(p).value, ls))
  {
    hide ParseTerm, Reads;
    forall f, v, negated ensures ParseTerm(p) == Some(Term(f, v, negated)) <==> Reads(p, f, v, negated) {
      ReadsIff(p, f, v, negated);
    }
    if ParseTerm(p).Some? {
      TermsAreLeaves(p);
      var t := ParseTerm(p).value;
      assert Reads(p, t.field, t.value, t.NotHas?);
    }
  }

  lemma {:induction false} ItemsAreTerms(parts: seq<string>)
    ensures ParseParts(parts).Some? <==> AllParse(parts)
    ensures ParseParts(parts).Some? ==>
              forall t :: t in ParseParts(parts).value <==> exists p :: p in parts && p != "" && ParseTerm(p) == Some(t)
  {
    hide ParseTerm;
    if parts != [] {
      var front, part := parts[..|parts| - 1], parts[|parts| - 1];
      ItemsAreTerms(front);
      assert forall p :: p in parts <==> p in front || p == part;
    }
  }

  lemma {:induction false} LeavesOfLeaves(items: seq<Selector>)
    requires forall t :: t in items ==> !t.And?
    ensures AllLeaves(items) == items
  {
    if items != [] {
      LeavesOfLeaves(items[1..]);
      assert items == [items[0]] + items[1..];
    }
  }

  lemma AssembledLeaves(items: seq<Selector>)
    requires forall t :: t in items ==> !t.And?
    ensures Leaves(Assemble(items)) == items
  {
    LeavesOfLeaves(items);
    if |items| == 1 { assert items[0] in items && items == [items[0]]; }
  }

  /** For every text and every transformation: it is parsed exactly when all its parts are understood, and then matches
      the field sets that meet all of them. */
  lemma SelectorMeans(selector: string, fn: TransformFunc, ls: FieldSet)
    ensures var r, parts := Parse(selector, fn), Split(selector, ",");
            && (r.Some? <==> forall p :: p in parts ==> IsUnderstood(p, fn))
            && (r.Some? ==> (Matches(r.value, ls) <==> forall p :: p in parts ==> IsMet(p, fn, ls)))
  {
    hide Split, SortStrings, ParseTerm, Transform, Matches, Leaves, LeafMoves, LeafMeets, Assemble, Reads;
    var parts := Split(selector, ",");
    SortKeepsMembers(parts);
    ItemsAreTerms(SortStrings(parts));
    forall p | p in parts
      ensures IsUnderstood(p, fn) <==> p == "" || (ParseTerm(p).Some? && LeafMoves(fn, ParseTerm(p).value))
      ensures p != "" && IsUnderstood(p, fn) ==> (IsMet(p, fn, ls) <==> LeafMeets(fn, ParseTerm(p).value, ls))
    {
      if p != "" { PartMeans(p, fn, ls); }
    }
    var items := ParseParts(SortStrings(parts));
    if items.Some? {
      forall t | t in items.value ensures !t.And? {
        var p :| p in SortStrings(parts) && p != "" && ParseTerm(p) == Some(t);
        TermsAreLeaves(p);
      }
      AssembledLeaves(items.value);
      TransformMeans(Assemble(items.value), fn, ls);
      PartsAgree(parts, items.value, fn, ls);
    } else {
      assert !AllParse(parts);
    }
  }

  lemma PartsAgree(parts: seq<string>, items: seq<Selector>, fn: TransformFunc, ls: FieldSet)
    requires AllParse(parts)
    requires forall t :: t in items <==> exists p :: p in parts && p != "" && ParseTerm(p) == Some(t)
    requires forall p :: p in parts ==> (IsUnderstood(p, fn) <==> p == "" || LeafMoves(fn, ParseTermOr(p)))
    requires forall p :: p in parts && p != "" && IsUnderstood(p, fn) ==>
               (IsMet(p, fn, ls) <==> LeafMeets(fn, ParseTermOr(p), ls))
    ensures (forall t :: t in items ==> LeafMoves(fn, t)) <==> forall p :: p in parts ==> IsUnderstood(p, fn)
    ensures (forall t :: t in items ==> LeafMoves(fn, t)) ==>
              ((forall t :: t in items ==> LeafMeets(fn, t, ls)) <==> forall p :: p in parts ==> IsMet(p, fn, ls))
  {
    hide ParseTerm, LeafMoves, LeafMeets, IsUnderstood;
    assert forall p :: p in parts && p != "" ==> ParseTerm(p) == Some(ParseTermOr(p)) && ParseTermOr(p) in items;
  }

  function ParseTermOr(p: string): Selector { if ParseTerm(p).Some? then ParseTerm(p).value else And([]) }

  lemma NoDoubleEquals(s: string, i: int)
    requires '=' !in s
    ensures !OccursAt(s, "==", i)
  {
    if 0 <= i < |s| { assert s[i..][0] == s[i]; }
  }

  lemma ReadsDoubleEquals(f: string, v: string)
    requires '=' !in f && '=' !in v && !HasSuffix(f, "!")
    ensures Reads(f + "==" + v, f, v, false)
  {
    var text := f + "==" + v;
    forall i ensures !OccursAt(text, "!=", i) && (i < |f| ==> !OccursAt(text, "==", i)) && !OccursAt(v, "==", i) {
      if OccursAt(text, "!=", i) {
        CharOfOccurrence(text, "!=", i, 0);
        CharOfOccurrence(text, "!=", i, 1);
        EndsInBang(f);
      }
      if 0 <= i < |f| { assert text[i..][0] == f[i]; }
      NoDoubleEquals(v, i);
    }
    if Divided(text, "!=") {
      var x, y :| Divides(text, "!=", x, y);
      OccursBetween(x, "!=", y);
    }
    assert Divides(text, "==", f, v);
  }

  /** In particular `==` asks for equality. */
  lemma DoubleEqualsMeansEquality(f: string, v: string, ls: FieldSet)
    requires ',' !in f && ',' !in v && '=' !in f && '=' !in v && !HasSuffix(f, "!")
    ensures var r := ParseSelector(f + "==" + v); r.Some? && (Matches(r.value, ls) <==> Get(ls, f) == v)
  {
    hide Reads, HasSuffix, Parse, ParseTerm, Matches, Split, Join;
    var text := f + "==" + v;
    ReadsDoubleEquals(f, v);
    ReadsIff(text, f, v, false);
    PartMeans(text, Keep, ls);
    SelectorMeans(text, Keep, ls);
    JoinOne(text, ",");
    SplitJoin([text], ',');
    assert text in [text];
  }

  /** A field that is absent reads as empty. */
  lemma AbsentFieldsAreEmpty(f: string, v: string, ls: FieldSet)
    requires f !in ls
    ensures Matches(Has(f, v), ls) <==> v == ""
    ensures Matches(NotHas(f, v), ls) <==> v != ""
  {
  }

  // ---- Exact matches ----

  /** The length of the longest value that occurs. */
  function Longest(s: Selector): nat
    decreases s, 1
  {
    if s.And? then LongestOfAll(s.terms) else |s.value|
  }

  function LongestOfAll(terms: seq<Selector>): nat
    decreases terms, 0
  {
    if terms == [] then 0
    else
      var a, b := Longest(terms[0]), LongestOfAll(terms[1..]);
      if a >= b then a else b
  }

  /** Where no exact match is reported, a value longer than all that occur is as good as any that matched. */
  lemma {:induction false} LongValuesMatch(s: Selector, field: string, ls: FieldSet, value: string)
    requires Matches(s, ls) && RequiresExactMatch(s, field).None? && |value| > Longest(s)
    ensures Matches(s, ls[field := value])
    decreases s, 1
  {
    if s.And? { LongValuesMatchAll(s.terms, field, ls, value); }
  }

  lemma {:induction false} LongValuesMatchAll(terms: seq<Selector>, field: string, ls: FieldSet, value: string)
    requires forall i :: 0 <= i < |terms| ==> Matches(terms[i], ls)
    requires FirstExactMatch(terms, field).None? && |value| > LongestOfAll(terms)
    ensures forall i :: 0 <= i < |terms| ==> Matches(terms[i], ls[field := value])
    decreases terms, 0
  {
    if terms != [] {
      LongValuesMatch(terms[0], field, ls, value);
      forall i | 0 <= i < |terms[1..]| ensures Matches(terms[1..][i], ls) { assert terms[1..][i] == terms[i + 1]; }
      LongValuesMatchAll(terms[1..], field, ls, value);
      forall i | 0 < i < |terms| ensures Matches(terms[i], ls[field := value]) { assert terms[i] == terms[1..][i - 1]; }
    }
  }

  /** Everything that the selector matches has this value at the field. */
  ghost predicate Forces(s: Selector, field: string, value: string) {
    forall ls :: Matches(s, ls) ==> Get(ls, field) == value
  }

  /** Of a selector that matches anything, an exact match is reported exactly when there is one. */
  lemma ExactMatchIff(s: Selector, field: string, ls: FieldSet, value: string)
    requires Matches(s, ls)
    ensures RequiresExactMatch(s, field) == Some(value) <==> Forces(s, field, value)
  {
    if RequiresExactMatch(s, field).None? {
      var other := seq(Longest(s) + |value| + 1, i => 'x');
      LongValuesMatch(s, field, ls, other);
      assert Get(ls[field := other], field) == other && |other| > |value|;
    } else {
      forall g | Matches(s, g) ensures Get(g, field) == RequiresExactMatch(s, field).value {
        ExactMatchIsRequired(s, field, g);
      }
      assert Get(ls, field) == RequiresExactMatch(s, field).value;
    }
  }
}
