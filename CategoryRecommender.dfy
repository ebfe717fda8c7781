/**
  The deterministic parts of category_recommender_e5_faiss.py: the label text embedded
  for each category, the query text built from a title and a spec, and recommend's
  mapping of FAISS ids back to categories. The CATEGORIES table itself is module
  CategoryTable.

  The sentence encoder and the FAISS index are not modelled: recommend receives the ids
  and similarities that `index.search` returned. The two `re.sub` calls of norm are
  opaque string transformers passed as parameters.
*/
module CategoryRecommender {
  import opened Wrappers
  import opened Decimal

  /** A category dict; synonyms is None when the dict has no "synonyms" key. */
  datatype Category = Category(
    code: string,
    path: string,
    desc: string,
    keywords: seq<string>,
    synonyms: Option<seq<string>>)

  /** Where parts[i] starts in sep.join(parts): after each earlier part and the separator that follows it. */
  function JoinOffset(sep: string, parts: seq<string>, i: nat): nat
    requires i <= |parts|
  {
    if i == 0 then 0 else |parts[0]| + |sep| + JoinOffset(sep, parts[1..], i - 1)
  }

  /** sep.join(parts): nothing for no parts, and otherwise a text that the last part ends. */
  function Join(sep: string, parts: seq<string>): (r: string)
    ensures |parts| == 0 ==> r == ""
    ensures |parts| > 0 ==> |r| == JoinOffset(sep, parts, |parts| - 1) + |parts[|parts| - 1]|
    decreases |parts|
  {
    if parts == [] then ""
    else if |parts| == 1 then parts[0]
    else parts[0] + sep + Join(sep, parts[1..])
  }

  /** Text p occurs in r starting at position o. */
  predicate PartAt(r: string, o: nat, p: string) {
    o + |p| <= |r| && r[o..o + |p|] == p
  }

  lemma PartAtShift(h: string, t: string, o: nat, p: string)
    requires PartAt(t, o, p)
    ensures PartAt(h + t, |h| + o, p)
  {
    assert (h + t)[|h| + o..|h| + o + |p|] == t[o..o + |p|];
  }

  lemma PartAtPrefix(h: string, t: string, o: nat, p: string)
    requires PartAt(h, o, p)
    ensures PartAt(h + t, o, p)
  {
    assert (h + t)[o..o + |p|] == h[o..o + |p|];
  }

  /** Cut at its offset, the joined text gives back part i, and the separator after it when another part follows. */
  lemma {:induction false} JoinPart(sep: string, parts: seq<string>, i: nat)
    requires i < |parts|
    ensures PartAt(Join(sep, parts), JoinOffset(sep, parts, i), parts[i])
    ensures i + 1 < |parts| ==>
      && JoinOffset(sep, parts, i + 1) == JoinOffset(sep, parts, i) + |parts[i]| + |sep|
      && PartAt(Join(sep, parts), JoinOffset(sep, parts, i) + |parts[i]|, sep)
    decreases i
  {
    if i == 0 {
      JoinFirst(sep, parts);
    } else {
      var tail := parts[1..];
      var h := parts[0] + sep;
      JoinFirst(sep, parts);
      JoinPart(sep, tail, i - 1);
      assert parts[i] == tail[i - 1];
      PartAtShift(h, Join(sep, tail), JoinOffset(sep, tail, i - 1), parts[i]);
      if i + 1 < |parts| {
        PartAtShift(h, Join(sep, tail), JoinOffset(sep, tail, i - 1) + |parts[i]|, sep);
      }
    }
  }

  /** The joined text starts with the first part, followed by the separator and the join of the rest when there is more. */
  lemma JoinFirst(sep: string, parts: seq<string>)
    requires |parts| > 0
    ensures PartAt(Join(sep, parts), 0, parts[0])
    ensures |parts| > 1 ==> Join(sep, parts) == parts[0] + sep + Join(sep, parts[1..])
    ensures |parts| > 1 ==> PartAt(Join(sep, parts), |parts[0]|, sep)
  {
    if |parts| == 1 {
      assert Join(sep, parts)[0..|parts[0]|] == parts[0];
    } else {
      var h := parts[0] + sep;
      var rest := Join(sep, parts[1..]);
      assert PartAt(h, 0, parts[0]);
      PartAtPrefix(h, rest, 0, parts[0]);
      assert PartAt(h, |parts[0]|, sep);
      PartAtPrefix(h, rest, |parts[0]|, sep);
    }
  }

  /** cat.get("synonyms", []): the list when the key is present, else the empty list. */
  function SynonymsOrEmpty(c: Category): (s: seq<string>)
    ensures c.synonyms.Some? ==> s == c.synonyms.value
    ensures c.synonyms.None? ==> s == []
  {
    match c.synonyms
    case Some(s) => s
    case None => []
  }

  const CategoryLabel: string := "category: "
  const DescLabel: string := ". desc: "
  const KeywordsLabel: string := ". keywords: "
  const SynonymsLabel: string := ". synonyms: "

  /**
    label_text(cat): cut at its seams, the text is the labelled path, the labelled
    description, the labelled comma-joined keywords and the labelled comma-joined
    synonyms, in that order.
  */
  function LabelText(c: Category): (r: string)
    ensures var kw, syn := Join(", ", c.keywords), Join(", ", SynonymsOrEmpty(c));
      var a := |CategoryLabel| + |c.path|;
      var b := a + |DescLabel| + |c.desc|;
      var d := b + |KeywordsLabel| + |kw|;
      && |r| == d + |SynonymsLabel| + |syn|
      && r[..a] == CategoryLabel + c.path
      && r[a..b] == DescLabel + c.desc
      && r[b..d] == KeywordsLabel + kw
      && r[d..] == SynonymsLabel + syn
  {
    var kw := Join(", ", c.keywords);
    var syn := Join(", ", SynonymsOrEmpty(c));
    var p1, p2, p3, p4 := CategoryLabel + c.path, DescLabel + c.desc, KeywordsLabel + kw, SynonymsLabel + syn;
    SliceConcat(p1 + p2 + p3, p4);
    SliceConcat(p1 + p2, p3);
    SliceConcat(p1, p2);
    SliceOfPrefix(p1 + p2 + p3, |p1|, |p1| + |p2|);
    p1 + p2 + p3 + p4
  }

  lemma SliceOfPrefix<T>(s: seq<T>, i: nat, j: nat)
    requires i <= j <= |s|
    ensures forall t: seq<T> :: (s + t)[i..j] == s[i..j]
  {
  }

  /** Every keyword appears in the label text, at its place in the comma-joined keyword list. */
  lemma LabelHasKeyword(c: Category, i: nat)
    requires i < |c.keywords|
    ensures PartAt(LabelText(c),
      |CategoryLabel| + |c.path| + |DescLabel| + |c.desc| + |KeywordsLabel| + JoinOffset(", ", c.keywords, i),
      c.keywords[i])
  {
    var p1, p2 := CategoryLabel + c.path, DescLabel + c.desc;
    var p3, p4 := KeywordsLabel + Join(", ", c.keywords), SynonymsLabel + Join(", ", SynonymsOrEmpty(c));
    JoinPart(", ", c.keywords, i);
    var o := JoinOffset(", ", c.keywords, i);
    PartAtShift(KeywordsLabel, Join(", ", c.keywords), o, c.keywords[i]);
    PartInThird(p1, p2, p3, p4, |KeywordsLabel| + o, c.keywords[i]);
  }

  /** Every synonym appears in the label text, at its place in the comma-joined synonym list at the end. */
  lemma LabelHasSynonym(c: Category, i: nat)
    requires i < |SynonymsOrEmpty(c)|
    ensures var syns := SynonymsOrEmpty(c);
      PartAt(LabelText(c), |LabelText(c)| - |Join(", ", syns)| + JoinOffset(", ", syns, i), syns[i])
  {
    var syns := SynonymsOrEmpty(c);
    var p1, p2 := CategoryLabel + c.path, DescLabel + c.desc;
    var p3, p4 := KeywordsLabel + Join(", ", c.keywords), SynonymsLabel + Join(", ", syns);
    JoinPart(", ", syns, i);
    var o := JoinOffset(", ", syns, i);
    PartAtShift(SynonymsLabel, Join(", ", syns), o, syns[i]);
    PartAtShift(p1 + p2 + p3, p4, |SynonymsLabel| + o, syns[i]);
  }

  lemma PartInThird(p1: string, p2: string, p3: string, p4: string, o: nat, x: string)
    requires PartAt(p3, o, x)
    ensures PartAt(p1 + p2 + p3 + p4, |p1| + |p2| + o, x)
  {
    PartAtShift(p1 + p2, p3, o, x);
    PartAtPrefix(p1 + p2 + p3, p4, |p1 + p2| + o, x);
  }

  /** A category without a "synonyms" key is labelled as one with an empty list: its label ends with an empty synonyms part. */
  lemma MissingSynonymsLabel(c: Category)
    requires c.synonyms.None?
    ensures LabelText(c) == LabelText(c.(synonyms := Some([])))
    ensures var r := LabelText(c); |r| >= |SynonymsLabel| && r[|r| - |SynonymsLabel|..] == SynonymsLabel
  {
    assert Join(", ", SynonymsOrEmpty(c)) == "";
    assert SynonymsLabel + "" == SynonymsLabel;
  }

  /** Python's str.isspace(), the characters str.strip() removes. */
  predicate IsSpace(c: char) {
    c in Whitespace
  }

  const Whitespace: set<char> := {' ', '\t', '\n', '\U{000b}', '\U{000c}', '\r', '\U{001c}', '\U{001d}', '\U{001e}', '\U{001f}',
    '\U{0085}', '\U{00a0}', '\U{1680}', '\U{2000}', '\U{2001}', '\U{2002}', '\U{2003}', '\U{2004}', '\U{2005}', '\U{2006}',
    '\U{2007}', '\U{2008}', '\U{2009}', '\U{200a}', '\U{2028}', '\U{2029}', '\U{202f}', '\U{205f}', '\U{3000}'}

  function TrimStart(s: string): (r: string)
    ensures |r| <= |s| && r == s[|s| - |r|..]
    ensures r != [] ==> !IsSpace(r[0])
    ensures forall i :: 0 <= i < |s| - |r| ==> IsSpace(s[i])
    decreases |s|
  {
    if |s| > 0 && IsSpace(s[0]) then TrimStart(s[1..]) else s
  }

  function TrimEnd(s: string): (r: string)
    ensures |r| <= |s| && r == s[..|r|]
    ensures r != [] ==> !IsSpace(r[|r| - 1])
    ensures forall i :: |r| <= i < |s| ==> IsSpace(s[i])
    decreases |s|
  {
    if |s| > 0 && IsSpace(s[|s| - 1]) then TrimEnd(s[..|s| - 1]) else s
  }

  /** str.strip(): no whitespace at either end of the result, and a slice of the input. */
  function Strip(s: string): (r: string)
    ensures r != [] ==> !IsSpace(r[0]) && !IsSpace(r[|r| - 1])
    ensures var a := |s| - |TrimStart(s)|; a + |r| <= |s| && r == s[a..a + |r|]
  {
    var t := TrimStart(s);
    var r := TrimEnd(t);
    SliceOfSuffix(s, |s| - |t|, |r|);
    r
  }

  lemma SliceOfSuffix<T>(s: seq<T>, a: nat, n: nat)
    requires a + n <= |s|
    ensures s[a..][..n] == s[a..a + n]
  {
  }

  /** What strip cuts off at either end is whitespace. */
  lemma StripCutsOnlySpace(s: string)
    ensures var a := |s| - |TrimStart(s)|;
      && (forall i :: 0 <= i < a ==> IsSpace(s[i]))
      && (forall i :: a + |Strip(s)| <= i < |s| ==> IsSpace(s[i]))
  {
    var t := TrimStart(s);
    var a := |s| - |t|;
    forall i | a + |Strip(s)| <= i < |s|
      ensures IsSpace(s[i])
    {
      assert s[i] == t[i - a];
    }
  }

  /** strip leaves a string unchanged exactly when it has no whitespace at either end. */
  lemma StripFixedPoints(s: string)
    ensures Strip(s) == s <==> (s == [] || (!IsSpace(s[0]) && !IsSpace(s[|s| - 1])))
  {
    if s != [] && !IsSpace(s[0]) && !IsSpace(s[|s| - 1]) {
      assert TrimStart(s) == s;
      assert TrimEnd(s) == s;
    }
  }

  /** Stripping twice strips nothing more. */
  lemma StripIdempotent(s: string)
    ensures Strip(Strip(s)) == Strip(s)
  {
    var r := Strip(s);
    if r != [] {
      assert TrimStart(r) == r;
      assert TrimEnd(r) == r;
    }
  }

  /**
    norm(t): brackets and spaces stand for the two `re.sub` calls, whatever their patterns
    match; the final strip is modelled exactly.
  */
  function Norm(t: string, brackets: string -> string, spaces: string -> string): (r: string)
    ensures r != [] ==> !IsSpace(r[0]) && !IsSpace(r[|r| - 1])
  {
    Strip(spaces(brackets(t)))
  }

  const TitleLabel: string := "제목: "
  const SpecLabel: string := " [SEP] 규격: "

  /** The two halves of a concatenation are recovered by slicing at the seam. */
  lemma SliceConcat<T>(a: seq<T>, b: seq<T>)
    ensures (a + b)[..|a|] == a && (a + b)[|a|..] == b
  {
  }

  /**
    build_query(title, spec): the title label, the normalised title, the separator with the
    spec label, the normalised spec, in that order and nothing else.
  */
  function BuildQuery(title: string, spec: string, brackets: string -> string, spaces: string -> string): (r: string)
    ensures var n1, n2 := Norm(title, brackets, spaces), Norm(spec, brackets, spaces);
      var head := TitleLabel + n1;
      && |r| == |head| + |SpecLabel| + |n2|
      && r[..|head|] == head && head[..|TitleLabel|] == TitleLabel && head[|TitleLabel|..] == n1
      && r[|head|..] == SpecLabel + n2
  {
    var n1 := Norm(title, brackets, spaces);
    var n2 := Norm(spec, brackets, spaces);
    var head := TitleLabel + n1;
    var tail := SpecLabel + n2;
    SliceConcat(head, tail);
    SliceConcat(TitleLabel, n1);
    head + tail
  }

  /**
    With spec left at its default "" and substitutions that leave the empty string empty
    (as both of norm's patterns do, each needing at least one character to match), the
    query ends with the bare separator and spec label.
  */
  lemma DefaultSpecQuery(title: string, brackets: string -> string, spaces: string -> string)
    requires brackets("") == "" && spaces("") == ""
    ensures BuildQuery(title, "", brackets, spaces) == TitleLabel + Norm(title, brackets, spaces) + SpecLabel
  {
    var q := BuildQuery(title, "", brackets, spaces);
    var head := TitleLabel + Norm(title, brackets, spaces);
    assert Norm("", brackets, spaces) == "";
    assert SpecLabel + "" == SpecLabel;
    assert q == q[..|head|] + q[|head|..];
  }

  /** `next(c for c in cats if c['code'] == code)`: the first category with that code. */
  function FindByCode(cats: seq<Category>, code: string): (r: Option<Category>)
    ensures r.Some? ==> r.value in cats && r.value.code == code
    decreases |cats|
  {
    if cats == [] then None
    else if cats[0].code == code then Some(cats[0])
    else FindByCode(cats[1..], code)
  }

  /** The lookup fails exactly when no category carries the code, which is when `next` raises StopIteration. */
  lemma {:induction false} FindByCodeFails(cats: seq<Category>, code: string)
    ensures FindByCode(cats, code).None? <==> forall c :: c in cats ==> c.code != code
    decreases |cats|
  {
    if cats != [] {
      FindByCodeFails(cats[1..], code);
      assert forall c :: c in cats ==> c == cats[0] || c in cats[1..];
    }
  }

  /** Every code is str() of a non-negative integer, and no two categories share a code. */
  predicate WellCoded(cats: seq<Category>) {
    && (forall i :: 0 <= i < |cats| ==> Canonical(cats[i].code))
    && (forall i, j :: 0 <= i < j < |cats| ==> cats[i].code != cats[j].code)
  }

  lemma {:induction false} FindByCodeDistinct(cats: seq<Category>, i: nat)
    requires i < |cats|
    requires forall a, b :: 0 <= a < b < |cats| ==> cats[a].code != cats[b].code
    ensures FindByCode(cats, cats[i].code) == Some(cats[i])
    decreases |cats|
  {
    if i > 0 {
      assert cats[0].code != cats[i].code;
      assert cats[1..][i - 1] == cats[i];
      FindByCodeDistinct(cats[1..], i - 1);
    }
  }

  /**
    The id FAISS stores for a category is int(code) (build_label_index); recommend reads
    it back with str(id) and looks the code up. In a well-coded table this finds that same
    category.
  */
  lemma IdRoundTrip(cats: seq<Category>, i: nat)
    requires WellCoded(cats) && i < |cats|
    ensures AllDigits(cats[i].code)
    ensures IntToString(Parse(cats[i].code)) == cats[i].code
    ensures FindByCode(cats, IntToString(Parse(cats[i].code))) == Some(cats[i])
  {
    NatToStringParse(cats[i].code);
    FindByCodeDistinct(cats, i);
  }

  /** One recommendation: the matched category's path, the code, and the cosine FAISS returned. */
  datatype Recommendation = Recommendation(path: string, code: string, cosine: real)

  /** `next` found no category with the code: StopIteration. */
  datatype LookupError = StopIteration(position: nat)

  /** The id names a category of the table: its code str(id) is found. */
  predicate Resolves(cats: seq<Category>, id: int) {
    FindByCode(cats, IntToString(id)).Some?
  }

  /** The result dict recommend builds for an id that resolves. */
  function RecommendationFor(cats: seq<Category>, id: int, sim: real): Recommendation
    requires Resolves(cats, id)
  {
    Recommendation(FindByCode(cats, IntToString(id)).value.path, IntToString(id), sim)
  }

  /**
    recommend's loop over the first k results of `index.search(q, max(k, 10))`, given as
    ids and sims. The table it searches is the parameter cats; recommend itself searches
    CategoryTable.Categories.
  */
  method Recommend(cats: seq<Category>, ids: seq<int>, sims: seq<real>, k: int) returns (r: Result<seq<Recommendation>, LookupError>)
    requires k <= |ids| && k <= |sims|
    ensures r.Success? <==> forall i :: 0 <= i < k ==> Resolves(cats, ids[i])
    ensures r.Success? ==>
      && |r.value| == (if k <= 0 then 0 else k)
      && forall i :: 0 <= i < |r.value| ==> Resolves(cats, ids[i]) && r.value[i] == RecommendationFor(cats, ids[i], sims[i])
    ensures r.Failure? ==>
      && r.error.position < k
      && !Resolves(cats, ids[r.error.position])
      && forall i :: 0 <= i < r.error.position ==> Resolves(cats, ids[i])
  {
    var results: seq<Recommendation> := [];
    var i := 0;
    while i < k
      invariant 0 <= i <= if k >= 0 then k else 0
      invariant |results| == i
      invariant forall j :: 0 <= j < i ==> Resolves(cats, ids[j]) && results[j] == RecommendationFor(cats, ids[j], sims[j])
    {
      var code := IntToString(ids[i]);
      var cat := FindByCode(cats, code);
      if cat.None? {
        assert !Resolves(cats, ids[i]);
        return Failure(StopIteration(i));
      }
      assert Recommendation(cat.value.path, code, sims[i]) == RecommendationFor(cats, ids[i], sims[i]);
      results := results + [Recommendation(cat.value.path, code, sims[i])];
      i := i + 1;
    }
    r := Success(results);
  }

  /** A negative id (FAISS's -1 for a missing neighbour) never resolves in a well-coded table: its text starts with '-'. */
  lemma NegativeIdNeverResolves(cats: seq<Category>, id: int)
    requires WellCoded(cats) && id < 0
    ensures !Resolves(cats, id)
  {
    var s := IntToString(id);
    FindByCodeFails(cats, s);
    forall c | c in cats
      ensures c.code != s
    {
      var j :| 0 <= j < |cats| && cats[j] == c;
      assert IsDigit(c.code[0]);
    }
  }
}
