/**
 * The definition term of one UDF: its qualified name, the parenthesised
 * parameter list in the documentation theme's optional-bracket notation, and a
 * self-link to the term's anchor id. Each rendered element is a Token.
 */
module Signature {
  import opened Strings
  import opened Api
  import opened Seqs

  datatype Token =
    | Name(text: string)          // <code class="sig-name descname">
    | ParenOpen                   // <span class="sig-paren">(</span>
    | OptOpen                     // <span class="optional">[</span>
    | Sep                         // <span>, </span>
    | ParamName(name: string)     // <em class="sig-param">
    | OptClose                    // <span class="optional">]</span>
    | ParenClose                  // <span class="sig-paren">)</span>
    | HeaderLink(href: string)    // <a class="headerLink">

  /** A `dt` element: its id attribute and its children in order. */
  datatype Term = Term(id: string, children: seq<Token>)

  const ANCHOR_PREFIX := "PROJECT:"
  const ANCHOR_INFIX := "_FUNCTION:"

  // ---------------------------------------------------------------------------
  // Counting parameters

  function CountRequired(ps: seq<Param>): nat
    decreases |ps|
  {
    if ps == [] then 0
    else CountRequired(ps[..|ps| - 1]) + (if ps[|ps| - 1].isOptional then 0 else 1)
  }

  function CountOptional(ps: seq<Param>): nat
    decreases |ps|
  {
    if ps == [] then 0
    else CountOptional(ps[..|ps| - 1]) + (if ps[|ps| - 1].isOptional then 1 else 0)
  }

  function Names(ps: seq<Param>): (r: seq<string>)
    decreases |ps|
  {
    if ps == [] then [] else Names(ps[..|ps| - 1]) + [ps[|ps| - 1].name]
  }

  // ---------------------------------------------------------------------------
  // The parameter tokens

  /**
   * The tokens one parameter adds. `afterRequired` says whether a required
   * parameter was emitted before it, i.e. whether the loop's `first` flag has
   * been cleared.
   */
  function Chunk(p: Param, afterRequired: bool): seq<Token>
  {
    if p.isOptional then [OptOpen, Sep, ParamName(p.name), OptClose]
    else if afterRequired then [Sep, ParamName(p.name)]
    else [ParamName(p.name)]
  }

  /** The `params` array the signature loop builds, defined parameter by parameter. */
  function ParamTokens(ps: seq<Param>): (r: seq<Token>)
    ensures forall k :: 0 <= k < |r| ==> r[k].OptOpen? || r[k].Sep? || r[k].ParamName? || r[k].OptClose?
    decreases |ps|
  {
    if ps == [] then []
    else
      var init := ps[..|ps| - 1];
      ParamTokens(init) + Chunk(ps[|ps| - 1], CountRequired(init) > 0)
  }

  /**
   * One pass of the signature loop's body: the tokens for `p` are pushed, and
   * `first` is cleared by a required parameter.
   */
  method PushParam(params: seq<Token>, first: bool, p: Param) returns (out: seq<Token>, stillFirst: bool)
    ensures out == params + Chunk(p, !first)
    ensures stillFirst <==> first && p.isOptional
  {
    out := params;
    stillFirst := first;
    var param := ParamName(p.name);
    if p.isOptional {
      out := out + [OptOpen];
      out := out + [Sep];
      out := out + [param];
      out := out + [OptClose];
    } else {
      if stillFirst {
        stillFirst := false;
      } else {
        out := out + [Sep];
      }
      out := out + [param];
    }
  }

  /** The loop over `m.ordered_function_params` with its `first` flag. */
  method SignatureParams(ps: seq<Param>) returns (params: seq<Token>)
    ensures params == ParamTokens(ps)
  {
    params := [];
    var first := true;
    var i := 0;
    while i < |ps|
      invariant 0 <= i <= |ps|
      invariant params == ParamTokens(ps[..i])
      invariant first <==> CountRequired(ps[..i]) == 0
    {
      assert ps[..i + 1][..i] == ps[..i];
      ParamTokensStep(ps, i);
      params, first := PushParam(params, first, ps[i]);
      i := i + 1;
    }
    assert ps[..|ps|] == ps;
  }

  // ---------------------------------------------------------------------------
  // Ids and names

  /** The `dt`'s id: `PROJECT:{project_id}_FUNCTION:{UPPER(name)}`. */
  function AnchorId(projectId: nat, name: string): (r: string)
    ensures ANCHOR_PREFIX <= r
    ensures |r| == |ANCHOR_PREFIX| + |Decimal(projectId)| + |ANCHOR_INFIX| + |name|
    ensures r[|r| - |name|..] == Upper(name)
  {
    ANCHOR_PREFIX + Decimal(projectId) + ANCHOR_INFIX + Upper(name)
  }

  /** The text of the `sig-name` element: an optional `UPPER(module_name).` and `UPPER(name)`. */
  function DisplayName(m: Udf): (r: string)
    ensures |r| == |m.name| + (if m.moduleName.Some? then |m.moduleName.value| + 1 else 0)
  {
    var prefix := match m.moduleName
      case Some(mn) => Upper(mn) + "."
      case None => "";
    prefix + Upper(m.name)
  }

  /** The `dt` element that `this.signature(m, project_id)` returns. */
  function SignatureOf(m: Udf, projectId: nat): (t: Term)
    ensures t.id == AnchorId(projectId, m.name)
    ensures |t.children| == |ParamTokens(m.params)| + 4
    ensures t.children[|t.children| - 1] == HeaderLink("#" + t.id)
  {
    var id := AnchorId(projectId, m.name);
    Term(id, [Name(DisplayName(m)), ParenOpen] + ParamTokens(m.params) + [ParenClose, HeaderLink("#" + id)])
  }

  method RenderSignature(m: Udf, projectId: nat) returns (t: Term)
    ensures t == SignatureOf(m, projectId)
  {
    var params := SignatureParams(m.params);
    var id := "PROJECT:" + Decimal(projectId) + "_FUNCTION:" + Upper(m.name);
    var moduleName := if m.moduleName.Some? then Upper(m.moduleName.value) + "." else "";
    t := Term(id, [Name(moduleName + Upper(m.name)), ParenOpen] + params + [ParenClose, HeaderLink("#" + id)]);
  }

  // ---------------------------------------------------------------------------
  // Properties of the parameter tokens

  /** The tokens of the first `i` parameters are a prefix of the whole list. */
  lemma {:induction false} ParamTokensPrefix(ps: seq<Param>, i: nat)
    requires i <= |ps|
    ensures ParamTokens(ps[..i]) <= ParamTokens(ps)
    decreases |ps| - i
  {
    if i == |ps| {
      assert ps[..i] == ps;
    } else {
      var init := ps[..|ps| - 1];
      assert init[..i] == ps[..i];
      ParamTokensPrefix(init, i);
    }
  }

  /**
   * Where parameter `i` sits in the token list (after the tokens of the
   * parameters before it), and exactly what it contributes there: an optional
   * parameter `[`, `, `, name, `]` wherever it stands, a required one its name,
   * preceded by `, ` unless no required parameter came before it.
   */
  lemma ParamTokensAt(ps: seq<Param>, i: nat)
    requires i < |ps|
    ensures
      var off := |ParamTokens(ps[..i])|;
      var ts := ParamTokens(ps);
      && (ps[i].isOptional ==>
            off + 4 <= |ts| && ts[off..off + 4] == [OptOpen, Sep, ParamName(ps[i].name), OptClose])
      && (!ps[i].isOptional && CountRequired(ps[..i]) == 0 ==>
            off + 1 <= |ts| && ts[off..off + 1] == [ParamName(ps[i].name)])
      && (!ps[i].isOptional && CountRequired(ps[..i]) > 0 ==>
            off + 2 <= |ts| && ts[off..off + 2] == [Sep, ParamName(ps[i].name)])
  {
    var c := Chunk(ps[i], CountRequired(ps[..i]) > 0);
    ChunkPlacement(ps, i);
    if ps[i].isOptional {
      assert c == [OptOpen, Sep, ParamName(ps[i].name), OptClose];
    } else if CountRequired(ps[..i]) == 0 {
      assert c == [ParamName(ps[i].name)];
    } else {
      assert c == [Sep, ParamName(ps[i].name)];
    }
  }

  /** Parameter `i`'s chunk follows the tokens of the parameters before it. */
  lemma ChunkPlacement(ps: seq<Param>, i: nat)
    requires i < |ps|
    ensures
      var off := |ParamTokens(ps[..i])|;
      var c := Chunk(ps[i], CountRequired(ps[..i]) > 0);
      off + |c| <= |ParamTokens(ps)| && ParamTokens(ps)[off..off + |c|] == c
  {
    var front := ParamTokens(ps[..i]);
    var c := Chunk(ps[i], CountRequired(ps[..i]) > 0);
    ParamTokensPrefix(ps, i + 1);
    ParamTokensStep(ps, i);
    SliceOfPrefix(front, c, ParamTokens(ps));
  }

  lemma ParamTokensStep(ps: seq<Param>, i: nat)
    requires i < |ps|
    ensures ParamTokens(ps[..i + 1]) == ParamTokens(ps[..i]) + Chunk(ps[i], CountRequired(ps[..i]) > 0)
  {
    var upto := ps[..i + 1];
    assert upto[..|upto| - 1] == ps[..i];
    assert upto[|upto| - 1] == ps[i];
  }

  lemma SliceOfPrefix(front: seq<Token>, c: seq<Token>, ts: seq<Token>)
    requires front + c <= ts
    ensures |front| + |c| <= |ts| && ts[|front|..|front| + |c|] == c
  {
    assert ts[..|front| + |c|] == front + c;
    assert (front + c)[|front|..] == c;
  }

  /** Token count: 4 per optional parameter, 2 per required one, less the separator the first required one omits. */
  lemma {:induction false} ParamTokensLength(ps: seq<Param>)
    ensures |ParamTokens(ps)| + (if CountRequired(ps) > 0 then 1 else 0)
            == 4 * CountOptional(ps) + 2 * CountRequired(ps)
    decreases |ps|
  {
    if ps != [] {
      ParamTokensLength(ps[..|ps| - 1]);
    }
  }

  /** The names among a token list, in order. */
  function TokenNames(ts: seq<Token>): seq<string>
    decreases |ts|
  {
    if ts == [] then []
    else TokenNames(ts[..|ts| - 1]) + (if ts[|ts| - 1].ParamName? then [ts[|ts| - 1].name] else [])
  }

  lemma {:induction false} TokenNamesAppend(a: seq<Token>, b: seq<Token>)
    ensures TokenNames(a + b) == TokenNames(a) + TokenNames(b)
    decreases |b|
  {
    if b != [] {
      var b' := b[..|b| - 1];
      assert (a + b)[..|a + b| - 1] == a + b';
      TokenNamesAppend(a, b');
    } else {
      assert a + b == a;
    }
  }

  /** Every parameter's name appears exactly once among the tokens, in parameter order. */
  lemma {:induction false} ParamTokensNames(ps: seq<Param>)
    ensures TokenNames(ParamTokens(ps)) == Names(ps)
    decreases |ps|
  {
    if ps != [] {
      var init := ps[..|ps| - 1];
      var c := Chunk(ps[|ps| - 1], CountRequired(init) > 0);
      ParamTokensNames(init);
      TokenNamesAppend(ParamTokens(init), c);
      ChunkNames(ps[|ps| - 1], CountRequired(init) > 0);
    }
  }

  /** How often token `t` occurs in `ts`. */
  function Occurrences(ts: seq<Token>, t: Token): nat
    decreases |ts|
  {
    if ts == [] then 0
    else Occurrences(ts[..|ts| - 1], t) + (if ts[|ts| - 1] == t then 1 else 0)
  }

  lemma {:induction false} OccurrencesAppend(a: seq<Token>, b: seq<Token>, t: Token)
    ensures Occurrences(a + b, t) == Occurrences(a, t) + Occurrences(b, t)
    decreases |b|
  {
    if b != [] {
      var b' := b[..|b| - 1];
      assert (a + b)[..|a + b| - 1] == a + b';
      OccurrencesAppend(a, b', t);
    } else {
      assert a + b == a;
    }
  }

  /**
   * Brackets balance, one pair per optional parameter, and the separators are
   * one per optional parameter plus one between each two required parameters.
   */
  lemma {:induction false} ParamTokensPunctuation(ps: seq<Param>)
    ensures Occurrences(ParamTokens(ps), OptOpen) == CountOptional(ps)
    ensures Occurrences(ParamTokens(ps), OptClose) == CountOptional(ps)
    ensures Occurrences(ParamTokens(ps), Sep) + (if CountRequired(ps) > 0 then 1 else 0)
            == CountOptional(ps) + CountRequired(ps)
    decreases |ps|
  {
    if ps != [] {
      var init := ps[..|ps| - 1];
      var c := Chunk(ps[|ps| - 1], CountRequired(init) > 0);
      ParamTokensPunctuation(init);
      OccurrencesAppend(ParamTokens(init), c, OptOpen);
      OccurrencesAppend(ParamTokens(init), c, OptClose);
      OccurrencesAppend(ParamTokens(init), c, Sep);
      ChunkOccurrences(ps[|ps| - 1], CountRequired(init) > 0);
    }
  }

  lemma ChunkNames(p: Param, afterRequired: bool)
    ensures TokenNames(Chunk(p, afterRequired)) == [p.name]
  {
    var n := [ParamName(p.name)];
    assert TokenNames(n) == [p.name] by { assert n[..0] == []; }
    assert TokenNames([Sep]) == [] by { assert [Sep][..0] == []; }
    assert TokenNames([OptOpen]) == [] by { assert [OptOpen][..0] == []; }
    assert TokenNames([OptClose]) == [] by { assert [OptClose][..0] == []; }
    if p.isOptional {
      TokenNamesAppend([OptOpen], [Sep]);
      assert [OptOpen] + [Sep] == [OptOpen, Sep];
      TokenNamesAppend([OptOpen, Sep], n);
      TokenNamesAppend([OptOpen, Sep] + n, [OptClose]);
      assert Chunk(p, afterRequired) == [OptOpen, Sep] + n + [OptClose];
    } else if afterRequired {
      TokenNamesAppend([Sep], n);
      assert Chunk(p, afterRequired) == [Sep] + n;
    }
  }

  lemma OccurrencesSingle(u: Token, t: Token)
    ensures Occurrences([u], t) == if u == t then 1 else 0
  {
    assert [u][..0] == [];
  }

  lemma ChunkOccurrencesOf(p: Param, afterRequired: bool, t: Token)
    ensures Occurrences(Chunk(p, afterRequired), t)
            == (if p.isOptional then Occurrences([OptOpen, Sep, OptClose], t)
                else if afterRequired then Occurrences([Sep], t) else 0)
            + (if t == ParamName(p.name) then 1 else 0)
  {
    var n := [ParamName(p.name)];
    OccurrencesSingle(OptOpen, t);
    OccurrencesSingle(Sep, t);
    OccurrencesSingle(OptClose, t);
    OccurrencesSingle(ParamName(p.name), t);
    if p.isOptional {
      OccurrencesAppend([OptOpen], [Sep], t);
      assert [OptOpen] + [Sep] == [OptOpen, Sep];
      OccurrencesAppend([OptOpen, Sep], n, t);
      OccurrencesAppend([OptOpen, Sep] + n, [OptClose], t);
      OccurrencesAppend([OptOpen, Sep], [OptClose], t);
      assert [OptOpen, Sep] + [OptClose] == [OptOpen, Sep, OptClose];
      assert Chunk(p, afterRequired) == [OptOpen, Sep] + n + [OptClose];
    } else if afterRequired {
      OccurrencesAppend([Sep], n, t);
      assert Chunk(p, afterRequired) == [Sep] + n;
    }
  }

  lemma ChunkOccurrences(p: Param, afterRequired: bool)
    ensures Occurrences(Chunk(p, afterRequired), OptOpen) == (if p.isOptional then 1 else 0)
    ensures Occurrences(Chunk(p, afterRequired), OptClose) == (if p.isOptional then 1 else 0)
    ensures Occurrences(Chunk(p, afterRequired), Sep) == (if p.isOptional || afterRequired then 1 else 0)
  {
    var three := [OptOpen, Sep, OptClose];
    assert three[..2][..1][..0] == [];
    assert three[..2][..1] == [OptOpen];
    assert three[..2] == [OptOpen, Sep];
    OccurrencesSingle(Sep, OptOpen);
    OccurrencesSingle(Sep, OptClose);
    OccurrencesSingle(Sep, Sep);
    ChunkOccurrencesOf(p, afterRequired, OptOpen);
    ChunkOccurrencesOf(p, afterRequired, OptClose);
    ChunkOccurrencesOf(p, afterRequired, Sep);
  }

  // ---------------------------------------------------------------------------
  // Properties of the id and the displayed name

  /**
   * Two anchor ids coincide exactly when the project ids are equal and the
   * function names agree after upper-casing: UDF names of one project that
   * differ only in letter case get the same anchor.
   */
  lemma AnchorIdUnique(p1: nat, n1: string, p2: nat, n2: string)
    ensures AnchorId(p1, n1) == AnchorId(p2, n2) <==> p1 == p2 && Upper(n1) == Upper(n2)
  {
    if AnchorId(p1, n1) == AnchorId(p2, n2) {
      AnchorIdTail(p1, n1);
      AnchorIdTail(p2, n2);
      SplitUnique(Decimal(p1), "FUNCTION:" + Upper(n1), Decimal(p2), "FUNCTION:" + Upper(n2));
      DecimalInjective(p1, p2);
      assert Upper(n1) == ("FUNCTION:" + Upper(n1))[9..];
      assert Upper(n2) == ("FUNCTION:" + Upper(n2))[9..];
    }
  }

  /** After its fixed prefix, an anchor id is the decimal id, an underscore and the rest. */
  lemma AnchorIdTail(p: nat, n: string)
    ensures |AnchorId(p, n)| > |ANCHOR_PREFIX|
    ensures AnchorId(p, n)[|ANCHOR_PREFIX|..] == Decimal(p) + ['_'] + ("FUNCTION:" + Upper(n))
  {
    var d, u := Decimal(p), Upper(n);
    var fn: string := "FUNCTION:";
    assert ANCHOR_INFIX == ['_'] + fn;
    AppendAssoc(ANCHOR_PREFIX + d, ANCHOR_INFIX, u);
    AppendAssoc(ANCHOR_PREFIX, d, ANCHOR_INFIX + u);
    AppendAssoc(['_'], fn, u);
    AppendAssoc(d, ['_'], fn + u);
    DropPrefix(ANCHOR_PREFIX, d + ['_'] + (fn + u));
  }

  /** A string of digits followed by `_` splits uniquely at that `_`. */
  lemma SplitUnique(d1: string, r1: string, d2: string, r2: string)
    requires forall i :: 0 <= i < |d1| ==> IsDigit(d1[i])
    requires forall i :: 0 <= i < |d2| ==> IsDigit(d2[i])
    requires d1 + ['_'] + r1 == d2 + ['_'] + r2
    ensures d1 == d2 && r1 == r2
  {
    assert '_' !in d1 && '_' !in d2;
    TakeUntilSplit(d1, '_', r1);
    TakeUntilSplit(d2, '_', r2);
    assert r1 == (d1 + ['_'] + r1)[|d1| + 1..];
    assert r2 == (d2 + ['_'] + r2)[|d2| + 1..];
  }

  /** The anchor of project 7's function `foo`. */
  lemma AnchorIdExample()
    ensures AnchorId(7, "foo") == "PROJECT:7_FUNCTION:FOO"
  {
    assert Decimal(7) == "7";
    assert Upper("foo") == "FOO";
  }

  /** A lone optional parameter is wrapped in brackets; two required ones are comma-joined. */
  lemma ParamTokensExamples(a: Param, b: Param)
    ensures a.isOptional ==> ParamTokens([a]) == [OptOpen, Sep, ParamName(a.name), OptClose]
    ensures !a.isOptional && !b.isOptional ==>
              ParamTokens([a, b]) == [ParamName(a.name), Sep, ParamName(b.name)]
  {
    assert [a][..0] == [];
    assert [a, b][..1] == [a];
    if !a.isOptional && !b.isOptional {
      assert CountRequired([a]) == 1;
      assert ParamTokens([a]) == [ParamName(a.name)];
    }
  }

  /**
   * The displayed name ends with the upper-cased function name; with a module
   * name it starts with the upper-cased module name followed by a dot, and
   * without one it is the upper-cased function name alone.
   */
  lemma DisplayNameParts(m: Udf)
    ensures Upper(m.name) == DisplayName(m)[|DisplayName(m)| - |m.name|..]
    ensures m.moduleName.None? ==> DisplayName(m) == Upper(m.name)
    ensures m.moduleName.Some? ==>
              |DisplayName(m)| == |m.moduleName.value| + 1 + |m.name|
              && DisplayName(m)[..|m.moduleName.value|] == Upper(m.moduleName.value)
              && DisplayName(m)[|m.moduleName.value|] == '.'
  {
  }

  /**
   * The term's id is the anchor id, its one name element is the displayed
   * name, the parameter tokens stand between the two parentheses, and the
   * last child links to the term itself.
   */
  lemma SignatureLayout(m: Udf, projectId: nat)
    ensures
      var t := SignatureOf(m, projectId);
      var n := |t.children|;
      && t.id == AnchorId(projectId, m.name)
      && n == |ParamTokens(m.params)| + 4
      && t.children[0] == Name(DisplayName(m)) && t.children[1] == ParenOpen
      && t.children[2..n - 2] == ParamTokens(m.params)
      && t.children[n - 2] == ParenClose
      && t.children[n - 1] == HeaderLink("#" + t.id)
  {
  }
}
