/**
 * The chainable query builder (`APIFeatures`). It turns the parsed URL
 * query-string map into a store query. The store query is kept as the
 * sequence of operations applied to it (find, sort, select, skip, limit);
 * the store itself never runs them here.
 */
module QueryFeatures {
  import opened Wrappers
  import opened Text
  import opened JsNumbers

  /** A query-string value as Express' parser yields it: a string, a repeated key, or one level of brackets. */
  datatype Param = Str(s: string) | Items(items: seq<string>) | Fields(fields: map<string, string>)

  /** One operation applied to the store query, in the order it was applied. */
  datatype QueryOp =
    | Find(filter: map<string, Param>)
    | SortBy(spec: string)
    | Select(spec: string)
    | Skip(count: int)
    | Limit(count: int)

  /** The keys that steer the builder and are never used as filters. */
  const ExcludedFields: seq<string> := ["page", "sort", "limit", "fields"]
  const ControlKeys: set<string> := set j | 0 <= j < |ExcludedFields| :: ExcludedFields[j]

  const DefaultSort := "-createdAt"
  const DefaultProjection := "-__v"
  const DefaultPage := 1
  const DefaultLimit := 6

  // ---------------------------------------------------------------------
  // The comparison-operator rewrite `/\b(gte|gt|lte|lt)\b/g` -> `$&`
  // ---------------------------------------------------------------------

  /** The characters of `\w`: ASCII letters, digits and underscore. */
  predicate IsWordChar(c: char) {
    'a' <= c <= 'z' || 'A' <= c <= 'Z' || '0' <= c <= '9' || c == '_'
  }

  predicate IsOperator(w: string) {
    w == "gte" || w == "gt" || w == "lte" || w == "lt"
  }

  predicate StartsNonWord(s: string) {
    s == [] || !IsWordChar(s[0])
  }

  /** One word as the rewrite leaves it: `$` in front of an operator. */
  function Mark(w: string): string {
    if IsOperator(w) then ['$'] + w else w
  }

  /**
   * The rewrite, read word by word: each maximal run of word characters that
   * is exactly an operator gets one `$` in front; every other character is copied.
   */
  function Rewrite(s: string): (r: string)
    ensures StartsNonWord(s) ==> StartsNonWord(r)
    decreases |s|
  {
    if s == [] then []
    else if !IsWordChar(s[0]) then [s[0]] + Rewrite(s[1..])
    else
      var n := Span(s, IsWordChar);
      Mark(s[..n]) + Rewrite(s[n..])
  }

  /** Removes the `$` in front of each maximal operator word: the inverse of `Rewrite`. */
  function Strip(s: string): string
    decreases |s|
  {
    if s == [] then []
    else if IsWordChar(s[0]) then
      var n := Span(s, IsWordChar);
      s[..n] + Strip(s[n..])
    else
      var t := s[1..];
      var n := Span(t, IsWordChar);
      if s[0] == '$' && IsOperator(t[..n]) then t[..n] + Strip(t[n..])
      else [s[0]] + Strip(t)
  }

  /** What `Rewrite` produces never starts with a whole operator word. */
  lemma RewriteHeadIsNoOperator(t: string)
    ensures var r := Rewrite(t); !IsOperator(r[..Span(r, IsWordChar)])
  {
    var r := Rewrite(t);
    if t != [] && IsWordChar(t[0]) {
      var n := Span(t, IsWordChar);
      var w, rest := t[..n], t[n..];
      if !IsOperator(w) {
        assert r == w + Rewrite(rest);
        SpanOfRun(w, Rewrite(rest), IsWordChar);
        assert r[..|w|] == w;
      }
    }
  }

  lemma StripAfterNonWord(c: char, r: string)
    requires !IsWordChar(c)
    requires !IsOperator(r[..Span(r, IsWordChar)])
    ensures Strip([c] + r) == [c] + Strip(r)
  {
    assert ([c] + r)[1..] == r;
  }

  lemma StripPlainWord(w: string, r: string)
    requires w != [] && forall i :: 0 <= i < |w| ==> IsWordChar(w[i])
    requires StartsNonWord(r)
    ensures Strip(w + r) == w + Strip(r)
  {
    var x := w + r;
    SpanOfRun(w, r, IsWordChar);
    assert x[0] == w[0];
    assert x[..|w|] == w;
    assert x[|w|..] == r;
  }

  lemma StripMarkedWord(w: string, r: string)
    requires forall i :: 0 <= i < |w| ==> IsWordChar(w[i])
    requires StartsNonWord(r) && IsOperator(w)
    ensures Strip(['$'] + (w + r)) == w + Strip(r)
  {
    var x := w + r;
    var y := ['$'] + x;
    SpanOfRun(w, r, IsWordChar);
    assert y[0] == '$' && !IsWordChar('$');
    assert y[1..] == x;
    assert x[..|w|] == w;
    assert x[|w|..] == r;
  }

  /** The rewrite loses nothing: stripping the added `$` gives the original text back. */
  lemma {:induction false} StripRewrite(s: string)
    ensures Strip(Rewrite(s)) == s
    decreases |s|
  {
    if s == [] {
    } else if !IsWordChar(s[0]) {
      var r := Rewrite(s[1..]);
      assert Rewrite(s) == [s[0]] + r;
      StripRewrite(s[1..]);
      RewriteHeadIsNoOperator(s[1..]);
      StripAfterNonWord(s[0], r);
      assert [s[0]] + s[1..] == s;
    } else {
      var w, rest := LeadingWord(s);
      StripRewrite(rest);
      RewriteUnfoldWord(s);
      StripMark(w, Rewrite(rest));
    }
  }

  /** Splits a string that starts with a word character into its first word and the rest. */
  lemma LeadingWord(s: string) returns (w: string, rest: string)
    requires s != [] && IsWordChar(s[0])
    ensures w == s[..Span(s, IsWordChar)] && rest == s[Span(s, IsWordChar)..]
    ensures w != [] && (forall i :: 0 <= i < |w| ==> IsWordChar(w[i])) && StartsNonWord(rest)
    ensures s == w + rest && |rest| < |s|
  {
    var n := Span(s, IsWordChar);
    w, rest := s[..n], s[n..];
    assert s == w + rest;
  }

  lemma StripMark(w: string, r: string)
    requires w != [] && forall i :: 0 <= i < |w| ==> IsWordChar(w[i])
    requires StartsNonWord(r)
    ensures Strip(Mark(w) + r) == w + Strip(r)
  {
    if IsOperator(w) {
      assert Mark(w) + r == ['$'] + (w + r);
      StripMarkedWord(w, r);
    } else {
      StripPlainWord(w, r);
    }
  }

  lemma RewriteUnfoldWord(s: string)
    requires s != [] && IsWordChar(s[0])
    ensures Rewrite(s) == Mark(s[..Span(s, IsWordChar)]) + Rewrite(s[Span(s, IsWordChar)..])
  {
  }

  /** Two different strings never rewrite to the same string. */
  lemma RewriteInjective(a: string, b: string)
    requires Rewrite(a) == Rewrite(b)
    ensures a == b
  {
    StripRewrite(a);
    StripRewrite(b);
  }

  /** Text without a `$` has nothing to strip. */
  lemma {:induction false} StripWithoutDollar(s: string)
    requires '$' !in s
    ensures Strip(s) == s
    decreases |s|
  {
    if s != [] {
      if IsWordChar(s[0]) {
        var n := Span(s, IsWordChar);
        var w, rest := s[..n], s[n..];
        assert w + rest == s;
        assert '$' !in rest by {
          forall x | x in rest ensures x in s { }
        }
        StripWithoutDollar(rest);
        StripPlainWord(w, rest);
      } else {
        assert '$' !in s[1..] by {
          forall x | x in s[1..] ensures x in s { }
        }
        StripWithoutDollar(s[1..]);
        StripOtherChar(s[0], s[1..]);
        assert [s[0]] + s[1..] == s;
      }
    }
  }

  lemma StripOtherChar(c: char, t: string)
    requires !IsWordChar(c) && c != '$'
    ensures Strip([c] + t) == [c] + Strip(t)
  {
    assert ([c] + t)[1..] == t;
  }

  /** The rewrite only inserts `$` characters: all other characters stay, in order. */
  lemma {:induction false} RewriteOnlyAddsDollars(s: string)
    ensures Erase(Rewrite(s), '$') == Erase(s, '$')
    decreases |s|
  {
    if s != [] {
      if !IsWordChar(s[0]) {
        RewriteOnlyAddsDollars(s[1..]);
        EraseAfterHead(s[0], s[1..], Rewrite(s[1..]));
        assert [s[0]] + s[1..] == s;
      } else {
        var n := Span(s, IsWordChar);
        var w, rest := s[..n], s[n..];
        RewriteOnlyAddsDollars(rest);
        RewriteUnfoldWord(s);
        EraseAfterWord(w, rest, Rewrite(rest));
        assert w + rest == s;
      }
    }
  }

  lemma EraseAfterHead(c: char, t: string, r: string)
    requires !IsWordChar(c) && Erase(r, '$') == Erase(t, '$')
    ensures Erase([c] + r, '$') == Erase([c] + t, '$')
  {
    EraseConcat([c], r, '$');
    EraseConcat([c], t, '$');
  }

  lemma EraseAfterWord(w: string, rest: string, r: string)
    requires Erase(r, '$') == Erase(rest, '$')
    ensures Erase(Mark(w) + r, '$') == Erase(w + rest, '$')
  {
    EraseMark(w);
    EraseConcat(Mark(w), r, '$');
    EraseConcat(w, rest, '$');
  }

  lemma EraseMark(w: string)
    ensures Erase(Mark(w), '$') == Erase(w, '$')
  {
    if IsOperator(w) {
      EraseConcat(['$'], w, '$');
      assert Erase(['$'], '$') == [];
    }
  }

  /** A single word is prefixed with `$` exactly when it is an operator. */
  lemma RewriteWord(w: string)
    requires w != [] && forall i :: 0 <= i < |w| ==> IsWordChar(w[i])
    ensures Rewrite(w) == if IsOperator(w) then "$" + w else w
  {
    SpanOfRun(w, [], IsWordChar);
    assert w + [] == w;
    assert w[..|w|] == w && w[|w|..] == [];
  }

  /** Each of the four operators, standing alone, gets its `$`. */
  lemma RewriteOperators()
    ensures Rewrite("gte") == "$gte" && Rewrite("gt") == "$gt"
    ensures Rewrite("lte") == "$lte" && Rewrite("lt") == "$lt"
  {
    RewriteWord("gte");
    RewriteWord("gt");
    RewriteWord("lte");
    RewriteWord("lt");
  }

  /** Whole words only: a word that merely contains an operator is left alone. */
  lemma RewriteWholeWordsOnly()
    ensures Rewrite("gtx") == "gtx" && Rewrite("alt") == "alt"
  {
    RewriteWord("gtx");
    RewriteWord("alt");
  }

  /** Not idempotent: `$` is not a word character, so a rewritten operator is rewritten again. */
  lemma RewriteNotIdempotent()
    ensures Rewrite("gt") == "$gt" && Rewrite(Rewrite("gt")) == "$$gt"
  {
    RewriteWord("gt");
    assert "$gt"[1..] == "gt";
  }

  // ---------------------------------------------------------------------
  // The filter object
  // ---------------------------------------------------------------------

  /** Rewrites every key of `m`; the values stay with their (rewritten) keys. */
  function RewriteKeys<V>(m: map<string, V>): (r: map<string, V>)
    ensures forall k :: k in m ==> Rewrite(k) in r && r[Rewrite(k)] == m[k]
    ensures forall k' :: k' in r ==> Strip(k') in m && k' == Rewrite(Strip(k'))
  {
    forall k | k in m ensures Strip(Rewrite(k)) == k {
      StripRewrite(k);
    }
    var keys := set k | k in m :: Rewrite(k);
    map k' | k' in keys :: m[Strip(k')]
  }

  /** The rewrite applied to every key and every string value of a parameter. */
  function RewriteParam(p: Param): (r: Param)
    ensures r.Str? == p.Str? && r.Items? == p.Items? && r.Fields? == p.Fields?
    ensures p.Str? ==> Strip(r.s) == p.s
    ensures p.Items? ==> |r.items| == |p.items| && forall i :: 0 <= i < |p.items| ==> Strip(r.items[i]) == p.items[i]
    ensures p.Fields? ==> forall k :: k in p.fields ==>
      Rewrite(k) in r.fields && Strip(r.fields[Rewrite(k)]) == p.fields[k]
  {
    match p
    case Str(s) =>
      StripRewrite(s);
      Str(Rewrite(s))
    case Items(xs) =>
      forall x | x in xs ensures Strip(Rewrite(x)) == x {
        StripRewrite(x);
      }
      Items(seq(|xs|, i requires 0 <= i < |xs| => Rewrite(xs[i])))
    case Fields(m) =>
      forall k | k in m ensures Strip(Rewrite(m[k])) == m[k] {
        StripRewrite(m[k]);
      }
      var r := RewriteKeys(m);
      Fields(map k | k in r :: Rewrite(r[k]))
  }

  /** The rewrite applied to an object of parameters. */
  function RewriteObject(m: map<string, Param>): (r: map<string, Param>)
    ensures forall k :: k in m ==> Rewrite(k) in r && r[Rewrite(k)] == RewriteParam(m[k])
    ensures forall k' :: k' in r ==> Strip(k') in m && k' == Rewrite(Strip(k'))
  {
    var r := RewriteKeys(m);
    map k | k in r :: RewriteParam(r[k])
  }

  /**
   * The object `filter` hands to `find`: the query string without its control
   * keys, with the operator rewrite applied to every key and value.
   */
  function FilterObject(qs: map<string, Param>): (f: map<string, Param>)
    ensures forall c :: c in ControlKeys ==> c !in f
    ensures forall k :: k in qs && k !in ControlKeys ==> Rewrite(k) in f && f[Rewrite(k)] == RewriteParam(qs[k])
    ensures forall k' :: k' in f ==> Strip(k') in qs && Strip(k') !in ControlKeys && k' == Rewrite(Strip(k'))
  {
    var f := RewriteObject(qs - ControlKeys);
    assert forall c :: c in ControlKeys ==> '$' !in c;
    forall c | c in ControlKeys ensures Strip(c) == c {
      StripWithoutDollar(c);
    }
    f
  }

  /** The `forEach(delete)` loop over the excluded fields, on a copy of the query string. */
  method DropControlKeys(q: map<string, Param>) returns (r: map<string, Param>)
    ensures r.Keys == q.Keys - ControlKeys
    ensures forall k :: k in r ==> r[k] == q[k]
  {
    r := q;
    for i := 0 to |ExcludedFields|
      invariant r.Keys == q.Keys - set j | 0 <= j < i :: ExcludedFields[j]
      invariant forall k :: k in r ==> r[k] == q[k]
    {
      r := r - {ExcludedFields[i]};
    }
  }

  // ---------------------------------------------------------------------
  // Sort and projection specs
  // ---------------------------------------------------------------------

  function Lookup(qs: map<string, Param>, key: string): Option<Param> {
    if key in qs then Some(qs[key]) else None
  }

  /**
   * The spec `sort` and `limitFields` pass on: the default for a missing or empty
   * value, the commas turned into spaces otherwise; `None` when the value is not a
   * string, since `split` is then not a function and a `TypeError` is thrown.
   */
  function CommaListSpec(p: Option<Param>, default: string): (r: Option<string>)
    ensures r.None? <==> p.Some? && !p.value.Str?
    ensures p.Some? && p.value.Str? && p.value.s != "" ==> r == Some(ReplaceChar(p.value.s, ',', ' '))
  {
    match p
    case None => Some(default)
    case Some(Str(s)) =>
      if s == "" then Some(default)
      else
        JoinSplit(s, ',', ' ');
        Some(Join(Split(s, ','), " "))
    case Some(_) => None
  }

  /** A non-empty string spec keeps its length and characters, with every comma now a space. */
  lemma CommaListSpecOfString(s: string, default: string)
    requires s != ""
    ensures CommaListSpec(Some(Str(s)), default).Some?
    ensures var r := CommaListSpec(Some(Str(s)), default).value;
      |r| == |s| && ',' !in r && forall i :: 0 <= i < |s| ==> r[i] == if s[i] == ',' then ' ' else s[i]
  {
    JoinSplit(s, ',', ' ');
  }

  /** A missing or empty spec falls back to the default. */
  lemma CommaListSpecDefaults(qs: map<string, Param>, key: string, default: string)
    requires key !in qs || qs[key] == Str("")
    ensures CommaListSpec(Lookup(qs, key), default) == Some(default)
  {
  }

  // ---------------------------------------------------------------------
  // Pagination
  // ---------------------------------------------------------------------

  /** `String(value)` for a query-string value; a missing value is `undefined`. */
  function JsString(p: Option<Param>): (r: string)
    ensures p.Some? && p.value.Str? ==> r == p.value.s
    ensures p.None? || p.value.Fields? ==> forall i :: 0 <= i < |r| ==> !IsDigit(r[i])
  {
    match p
    case None => "undefined"
    case Some(Str(s)) => s
    case Some(Items(xs)) => Join(xs, ",")
    case Some(Fields(_)) => "[object Object]"
  }

  /** `parseInt(value, 10) || default`: `NaN` and `0` are falsy. */
  function NumberOr(p: Option<Param>, default: int): (r: int)
    ensures default != 0 ==> r != 0
  {
    match ParseInt(JsString(p))
    case None => default
    case Some(n) => if n == 0 then default else n
  }

  function PageOf(qs: map<string, Param>): (page: int)
    ensures page != 0
  {
    NumberOr(Lookup(qs, "page"), DefaultPage)
  }

  function LimitOf(qs: map<string, Param>): (limit: int)
    ensures limit != 0
  {
    NumberOr(Lookup(qs, "limit"), DefaultLimit)
  }

  /** The first page starts at 0; a later page, of a positive size, starts at least one page in. */
  lemma WindowStart(page: int, limit: int)
    requires page != 0 && limit != 0
    ensures (page - 1) * limit == 0 <==> page == 1
    ensures page > 1 && limit > 0 ==> (page - 1) * limit >= limit
  {
    if page > 1 && limit > 0 {
      assert (page - 1) * limit == (page - 2) * limit + limit;
      assert (page - 2) * limit >= 0;
    }
  }

  /** `(page - 1) * limit`. */
  function SkipOf(qs: map<string, Param>): (skip: int)
    ensures skip == 0 <==> PageOf(qs) == 1
    ensures PageOf(qs) > 1 && LimitOf(qs) > 0 ==> skip >= LimitOf(qs)
  {
    WindowStart(PageOf(qs), LimitOf(qs));
    (PageOf(qs) - 1) * LimitOf(qs)
  }

  /** A value written as a decimal number, perhaps followed by non-digits, is read as that number; 0 falls back to the default. */
  lemma NumberOrOfDecimal(n: int, suffix: string, default: int)
    requires suffix == [] || !IsDigit(suffix[0])
    ensures NumberOr(Some(Str(DecimalString(n) + suffix)), default) == if n == 0 then default else n
  {
    ParseIntOfDecimal(n, suffix);
  }

  /** A missing, non-numeric or object value falls back to the default. */
  lemma NumberOrOfNonNumber(p: Option<Param>, default: int)
    requires p.None? || p == Some(Str("")) || p.value.Fields?
    ensures NumberOr(p, default) == default
  {
    var s := JsString(p);
    assert s == "undefined" || s == "" || s == "[object Object]";
    assert Span(s, IsJsWhitespace) == 0;
    assert s[0..] == s;
    assert Span(s, IsDigit) == 0;
  }

  /** A string value with no digit at all (`page=abc`) is `NaN` and falls back to the default. */
  lemma NumberOrOfDigitless(s: string, default: int)
    requires forall i :: 0 <= i < |s| ==> !IsDigit(s[i])
    ensures NumberOr(Some(Str(s)), default) == default
  {
    var t := s[Span(s, IsJsWhitespace)..];
    assert forall i :: 0 <= i < |t| ==> !IsDigit(t[i]);
  }

  /** The examples of the page window: page 2 of 6, a missing page, a digit prefix, and a negative page. */
  lemma PaginationExamples(qs: map<string, Param>)
    ensures "page" in qs && qs["page"] == Str("2") && "limit" in qs && qs["limit"] == Str("6") ==>
      SkipOf(qs) == 6 && LimitOf(qs) == 6
    ensures "page" !in qs && "limit" !in qs ==> SkipOf(qs) == 0 && LimitOf(qs) == 6
    ensures "page" in qs && qs["page"] == Str("3abc") ==> PageOf(qs) == 3
    ensures "page" in qs && qs["page"] == Str("-1") && "limit" !in qs ==> SkipOf(qs) == -12
  {
    if "page" in qs && qs["page"] == Str("2") && "limit" in qs && qs["limit"] == Str("6") {
      assert DecimalString(2) + "" == "2" && DecimalString(6) + "" == "6";
      NumberOrOfDecimal(2, "", DefaultPage);
      NumberOrOfDecimal(6, "", DefaultLimit);
    }
    if "page" !in qs && "limit" !in qs {
      NumberOrOfNonNumber(None, DefaultPage);
      NumberOrOfNonNumber(None, DefaultLimit);
    }
    if "page" in qs && qs["page"] == Str("3abc") {
      assert DecimalString(3) + "abc" == "3abc";
      NumberOrOfDecimal(3, "abc", DefaultPage);
    }
    if "page" in qs && qs["page"] == Str("-1") && "limit" !in qs {
      assert DecimalString(-1) + "" == "-1";
      NumberOrOfDecimal(-1, "", DefaultPage);
      NumberOrOfNonNumber(None, DefaultLimit);
    }
  }

  // ---------------------------------------------------------------------
  // The builder object
  // ---------------------------------------------------------------------

  class ApiFeatures {
    /** The store query built so far, as the operations applied to it. */
    var query: seq<QueryOp>
    /** The parsed query string; no method changes it. */
    var queryString: map<string, Param>

    constructor (query: seq<QueryOp>, queryString: map<string, Param>)
      ensures this.query == query && this.queryString == queryString
    {
      this.query := query;
      this.queryString := queryString;
    }

    /** `find` on the query string without control keys, operators rewritten. */
    method Filter()
      modifies this`query
      ensures queryString == old(queryString)
      ensures query == old(query) + [Find(FilterObject(queryString))]
    {
      var queryObj := DropControlKeys(queryString);
      assert queryObj == queryString - ControlKeys;
      query := query + [Find(RewriteObject(queryObj))];
    }

    /** `sort` by the requested fields, newest-created first by default; `ok` is false when a `TypeError` is thrown. */
    method Sort() returns (ok: bool)
      modifies this`query
      ensures queryString == old(queryString)
      ensures ok <==> CommaListSpec(Lookup(queryString, "sort"), DefaultSort).Some?
      ensures query == if ok then old(query) + [SortBy(CommaListSpec(Lookup(queryString, "sort"), DefaultSort).value)]
                       else old(query)
    {
      var spec := CommaListSpec(Lookup(queryString, "sort"), DefaultSort);
      ok := spec.Some?;
      if ok {
        query := query + [SortBy(spec.value)];
      }
    }

    /** `select` the requested fields, all but the version key by default; `ok` is false when a `TypeError` is thrown. */
    method LimitFields() returns (ok: bool)
      modifies this`query
      ensures queryString == old(queryString)
      ensures ok <==> CommaListSpec(Lookup(queryString, "fields"), DefaultProjection).Some?
      ensures query == if ok then old(query) + [Select(CommaListSpec(Lookup(queryString, "fields"), DefaultProjection).value)]
                       else old(query)
    {
      var spec := CommaListSpec(Lookup(queryString, "fields"), DefaultProjection);
      ok := spec.Some?;
      if ok {
        query := query + [Select(spec.value)];
      }
    }

    /** `skip((page - 1) * limit).limit(limit)`. */
    method Paginate()
      modifies this`query
      ensures queryString == old(queryString)
      ensures query == old(query) + [Skip(SkipOf(queryString)), Limit(LimitOf(queryString))]
      ensures LimitOf(queryString) != 0 && PageOf(queryString) != 0
    {
      var page := NumberOr(Lookup(queryString, "page"), DefaultPage);
      var limit := NumberOr(Lookup(queryString, "limit"), DefaultLimit);
      var skip := (page - 1) * limit;
      query := query + [Skip(skip), Limit(limit)];
    }
  }
}
