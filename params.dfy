/**
 * The parameter field list of one UDF: one list item per parameter, whose
 * paragraph's markup is `<strong>name</strong> - (data_type) description`.
 */
module ParamList {
  import opened Strings
  import opened Api

  const STRONG_OPEN := "<strong>"
  const STRONG_CLOSE := "</strong> - ("
  const TYPE_CLOSE := ") "

  /** The `innerHTML` of the paragraph describing `p`. */
  function ParamText(p: Param): (r: string)
    ensures STRONG_OPEN <= r
    ensures |r| == |p.name| + |p.dataType| + |p.description| + 23
    ensures r[|r| - |p.description|..] == p.description
  {
    STRONG_OPEN + p.name + STRONG_CLOSE + p.dataType + TYPE_CLOSE + p.description
  }

  /** The list items `this.ordered_function_params(ps)` returns, one parameter at a time. */
  function ParamItems(ps: seq<Param>): (r: seq<string>)
    ensures |r| == |ps|
    ensures forall i :: 0 <= i < |ps| ==> r[i] == ParamText(ps[i])
    decreases |ps|
  {
    if ps == [] then [] else ParamItems(ps[..|ps| - 1]) + [ParamText(ps[|ps| - 1])]
  }

  /** The loop of `this.ordered_function_params`: one item per parameter, in order. */
  method DescribeParams(ps: seq<Param>) returns (params: seq<string>)
    ensures |params| == |ps|
    ensures forall i :: 0 <= i < |ps| ==> params[i] == ParamText(ps[i])
  {
    params := [];
    for i := 0 to |ps|
      invariant |params| == i
      invariant forall k :: 0 <= k < i ==> params[k] == ParamText(ps[k])
    {
      var p := ps[i];
      params := params + [STRONG_OPEN + p.name + STRONG_CLOSE + p.dataType + TYPE_CLOSE + p.description];
    }
  }

  /** The three fields of a parameter that its description shows. */
  datatype Fields = Fields(name: string, dataType: string, description: string)

  /**
   * Reads a description back: the name runs to the first `<`, the data type
   * to the first `)`; anything not of the rendered shape is None.
   */
  function ParseParamText(t: string): Option<Fields>
  {
    if STRONG_OPEN <= t then ParseName(t[|STRONG_OPEN|..]) else None
  }

  function ParseName(rest: string): Option<Fields>
  {
    var name := TakeUntil(rest, '<');
    var afterName := rest[|name|..];
    if STRONG_CLOSE <= afterName then ParseType(name, afterName[|STRONG_CLOSE|..]) else None
  }

  function ParseType(name: string, typed: string): Option<Fields>
  {
    var dataType := TakeUntil(typed, ')');
    var afterType := typed[|dataType|..];
    if TYPE_CLOSE <= afterType then Some(Fields(name, dataType, afterType[|TYPE_CLOSE|..])) else None
  }

  /**
   * A description determines the parameter's name, data type and description,
   * provided the name has no `<` and the data type no `)` (the markup is not
   * escaped, so those characters would be read as the markup's own).
   */
  lemma ParamTextRoundTrip(p: Param)
    requires '<' !in p.name && ')' !in p.dataType
    ensures ParseParamText(ParamText(p)) == Some(Fields(p.name, p.dataType, p.description))
  {
    var typed := p.dataType + TYPE_CLOSE + p.description;
    var rest := p.name + STRONG_CLOSE + typed;
    assert ParamText(p) == STRONG_OPEN + rest;
    assert ParamText(p)[|STRONG_OPEN|..] == rest;
    ParseNameOf(p.name, typed);
    ParseTypeOf(p.name, p.dataType, p.description);
  }

  lemma ParseNameOf(name: string, typed: string)
    requires '<' !in name
    ensures ParseName(name + STRONG_CLOSE + typed) == ParseType(name, typed)
  {
    var afterName := STRONG_CLOSE + typed;
    var rest := name + afterName;
    assert rest == name + STRONG_CLOSE + typed;
    assert rest == name + ['<'] + afterName[1..];
    TakeUntilSplit(name, '<', afterName[1..]);
    assert rest[|name|..] == afterName;
    assert afterName[|STRONG_CLOSE|..] == typed;
  }

  lemma ParseTypeOf(name: string, dataType: string, description: string)
    requires ')' !in dataType
    ensures ParseType(name, dataType + TYPE_CLOSE + description) == Some(Fields(name, dataType, description))
  {
    var tail := TYPE_CLOSE + description;
    var typed := dataType + tail;
    assert typed == dataType + TYPE_CLOSE + description;
    assert typed == dataType + [')'] + tail[1..];
    TakeUntilSplit(dataType, ')', tail[1..]);
    assert typed[|dataType|..] == tail;
    assert tail[|TYPE_CLOSE|..] == description;
  }
}
