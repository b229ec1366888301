/**
 * `Manager.getQueryMap`: the parameters of a device-link URI's query, split
 * on `&` and `=` with Java's `String.split` and URL-decoded.
 */
module QueryMap {
  import opened Wrappers

  /**
   * `NullPointerException` (no query at all), `ArrayIndexOutOfBoundsException`
   * (a parameter without a name or value part), `IllegalArgumentException` (a
   * malformed `%` escape, reported by the URL decoder).
   */
  datatype QueryError = NullQuery | IndexOutOfBounds | MalformedEscape

  // ---------------------------------------------------------------------------
  // Java's String.split on a one-character separator

  /** The position of the first `c` in `s`. */
  function IndexOf(s: string, c: char): (i: nat)
    requires c in s
    ensures i < |s| && s[i] == c && c !in s[..i]
  {
    if s[0] == c then 0 else 1 + IndexOf(s[1..], c)
  }

  /** Every piece between separators, empty ones included. */
  function SplitAll(s: string, c: char): (ps: seq<string>)
    ensures |ps| >= 1
    ensures forall i :: 0 <= i < |ps| ==> c !in ps[i]
    decreases |s|
  {
    if c in s then
      var i := IndexOf(s, c);
      [s[..i]] + SplitAll(s[i + 1..], c)
    else [s]
  }

  function DropTrailingEmpty(ps: seq<string>): (r: seq<string>)
    ensures |r| <= |ps| && r == ps[..|r|]
    ensures r == [] || r[|r| - 1] != []
    ensures forall i :: |r| <= i < |ps| ==> ps[i] == []
  {
    if ps != [] && ps[|ps| - 1] == [] then DropTrailingEmpty(ps[..|ps| - 1]) else ps
  }

  /**
   * `s.split(c)`: the whole string when `c` does not occur, otherwise the
   * pieces with the trailing empty ones removed (so it may be empty).
   */
  function JavaSplit(s: string, c: char): (ps: seq<string>)
    ensures c !in s ==> ps == [s]
    ensures forall i :: 0 <= i < |ps| ==> c !in ps[i]
  {
    if c in s then DropTrailingEmpty(SplitAll(s, c)) else [s]
  }

  /** The pieces joined back with `c` between them. */
  function Join(ps: seq<string>, c: char): string
  {
    if ps == [] then []
    else if |ps| == 1 then ps[0]
    else ps[0] + [c] + Join(ps[1..], c)
  }

  /** A first piece free of the separator splits off whole. */
  lemma SplitAllCons(p: string, c: char, t: string)
    requires c !in p
    ensures SplitAll(p + [c] + t, c) == [p] + SplitAll(t, c)
  {
    var s := p + [c] + t;
    assert s[|p|] == c;
    assert s[..|p|] == p;
    IndexOfFirst(s, c, |p|);
    assert s[|p| + 1..] == t;
  }

  lemma IndexOfFirst(s: string, c: char, i: nat)
    requires i < |s| && s[i] == c && c !in s[..i]
    ensures IndexOf(s, c) == i
  {
  }

  /** Splitting undoes joining, for pieces free of the separator. */
  lemma {:induction false} SplitAllJoin(ps: seq<string>, c: char)
    requires |ps| >= 1 && forall i :: 0 <= i < |ps| ==> c !in ps[i]
    ensures SplitAll(Join(ps, c), c) == ps
  {
    if |ps| > 1 {
      SplitAllCons(ps[0], c, Join(ps[1..], c));
      SplitAllJoin(ps[1..], c);
      assert ps == [ps[0]] + ps[1..];
    }
  }

  /** Splitting undoes joining in Java's sense too, when every piece is non-empty. */
  lemma JavaSplitJoin(ps: seq<string>, c: char)
    requires |ps| >= 1 && forall i :: 0 <= i < |ps| ==> c !in ps[i] && ps[i] != []
    ensures JavaSplit(Join(ps, c), c) == ps
  {
    if |ps| == 1 {
      assert Join(ps, c) == ps[0];
    } else {
      SplitAllJoin(ps, c);
      assert Join(ps, c)[|ps[0]|] == c;
    }
  }

  // ---------------------------------------------------------------------------
  // The query map

  /**
   * One parameter: `split("=")[0]` decoded, then `split("=")[1]` decoded, in
   * that order, each failure propagated. `decode` is `URLDecoder.decode`.
   */
  function Parameter(param: string, decode: string -> Option<string>): Result<(string, string), QueryError>
  {
    var parts := JavaSplit(param, '=');
    if |parts| < 1 then Err(IndexOutOfBounds)
    else if decode(parts[0]).None? then Err(MalformedEscape)
    else if |parts| < 2 then Err(IndexOutOfBounds)
    else if decode(parts[1]).None? then Err(MalformedEscape)
    else Ok((decode(parts[0]).value, decode(parts[1]).value))
  }

  /** How one parameter is read: a name and a value, or the exception it throws. */
  type ParameterParser = string -> Result<(string, string), QueryError>

  /** `Parameter` with its decoder, as the parser the loop applies to each parameter. */
  function ParameterWith(decode: string -> Option<string>): ParameterParser
  {
    param => Parameter(param, decode)
  }

  /** The map after the parameters in order: a later name replaces an earlier one; the first failure ends it. */
  function Collect(params: seq<string>, parse: ParameterParser): Result<map<string, string>, QueryError>
  {
    if params == [] then Ok(map[])
    else
      var m :- Collect(params[..|params| - 1], parse);
      var entry :- parse(params[|params| - 1]);
      Ok(m[entry.0 := entry.1])
  }

  lemma CollectSnoc(params: seq<string>, param: string, parse: ParameterParser)
    ensures Collect(params + [param], parse) ==
      match Collect(params, parse)
      case Err(e) => Err(e)
      case Ok(m) =>
        match parse(param)
        case Err(e) => Err(e)
        case Ok(entry) => Ok(m[entry.0 := entry.1])
  {
    assert (params + [param])[..|params|] == params;
  }

  /** Once a parameter has failed, the ones after it are not looked at. */
  lemma {:induction false} CollectStopsAtFailure(params: seq<string>, more: seq<string>, parse: ParameterParser)
    requires Collect(params, parse).Err?
    ensures Collect(params + more, parse) == Collect(params, parse)
  {
    if more != [] {
      var n := |more| - 1;
      var front := params + more[..n];
      CollectStopsAtFailure(params, more[..n], parse);
      assert params + more == front + [more[n]];
      CollectSnoc(front, more[n], parse);
    } else {
      assert params + more == params;
    }
  }

  function QueryMapOf(query: Option<string>, decode: string -> Option<string>): Result<map<string, string>, QueryError>
  {
    match query
    case None => Err(NullQuery)
    case Some(q) => Collect(JavaSplit(q, '&'), ParameterWith(decode))
  }

  /** `getQueryMap`: a null query throws; otherwise the loop over its `&`-separated parameters. */
  method GetQueryMap(query: Option<string>, decode: string -> Option<string>) returns (r: Result<map<string, string>, QueryError>)
    ensures r == QueryMapOf(query, decode)
  {
    if query.None? {
      return Err(NullQuery);
    }
    r := CollectParameters(JavaSplit(query.value, '&'), ParameterWith(decode));
  }

  /**
   * The loop of `getQueryMap`: each parameter read by `parse` (the split at
   * `=` and the two decodes of the loop body) and put into the map in turn,
   * the first exception ending it.
   */
  method CollectParameters(params: seq<string>, parse: ParameterParser) returns (r: Result<map<string, string>, QueryError>)
    ensures r == Collect(params, parse)
  {
    var m := map[];
    var i := 0;
    while i < |params|
      invariant 0 <= i <= |params|
      invariant Collect(params[..i], parse) == Ok(m)
    {
      assert params[..i + 1] == params[..i] + [params[i]];
      CollectSnoc(params[..i], params[i], parse);
      var entry := parse(params[i]);
      if entry.Err? {
        var done, more := params[..i + 1], params[i + 1..];
        assert Collect(done, parse) == Err(entry.error);
        CollectStopsAtFailure(done, more, parse);
        assert done + more == params;
        return Err(entry.error);
      }
      m := m[entry.value.0 := entry.value.1];
      i := i + 1;
    }
    assert params[..|params|] == params;
    return Ok(m);
  }

  /** The query `k1=v1&k2=v2&...` of name and value texts. */
  function QueryOf(pairs: seq<(string, string)>): string
  {
    Join(seq(|pairs|, i requires 0 <= i < |pairs| => pairs[i].0 + "=" + pairs[i].1), '&')
  }

  /** Name and value texts as a query carries them: non-empty, with no `&` or `=`, and decodable. */
  predicate WellFormedPairs(pairs: seq<(string, string)>, decode: string -> Option<string>)
  {
    forall i :: 0 <= i < |pairs| ==> QueryText(pairs[i].0, decode) && QueryText(pairs[i].1, decode)
  }

  /** The decoded pairs put into a map in order, later names winning. */
  function DecodedMap(pairs: seq<(string, string)>, decode: string -> Option<string>): map<string, string>
    requires WellFormedPairs(pairs, decode)
  {
    if pairs == [] then map[]
    else
      var last := pairs[|pairs| - 1];
      DecodedMap(pairs[..|pairs| - 1], decode)[decode(last.0).value := decode(last.1).value]
  }

  predicate QueryText(t: string, decode: string -> Option<string>)
  {
    t != [] && '&' !in t && '=' !in t && decode(t).Some?
  }

  /**
   * A query built from well-formed pairs reads back as the map of the decoded
   * pairs.
   */
  lemma {:induction false} QueryMapOfQuery(pairs: seq<(string, string)>, decode: string -> Option<string>)
    requires WellFormedPairs(pairs, decode)
    ensures pairs != [] ==> QueryMapOf(Some(QueryOf(pairs)), decode) == Ok(DecodedMap(pairs, decode))
  {
    if pairs != [] {
      var params := seq(|pairs|, i requires 0 <= i < |pairs| => pairs[i].0 + "=" + pairs[i].1);
      forall i | 0 <= i < |params|
        ensures '&' !in params[i] && params[i] != []
        ensures ParameterWith(decode)(params[i]) == Ok((decode(pairs[i].0).value, decode(pairs[i].1).value))
      {
        ParameterOfPair(pairs[i].0, pairs[i].1, decode);
      }
      JavaSplitJoin(params, '&');
      CollectPairs(pairs, params, decode, ParameterWith(decode));
    }
  }

  lemma ParameterOfPair(name: string, value: string, decode: string -> Option<string>)
    requires QueryText(name, decode) && QueryText(value, decode)
    ensures '&' !in name + "=" + value && name + "=" + value != []
    ensures Parameter(name + "=" + value, decode) == Ok((decode(name).value, decode(value).value))
  {
    JavaSplitJoin([name, value], '=');
    assert Join([name, value], '=') == name + "=" + value;
  }

  lemma {:induction false} CollectPairs(pairs: seq<(string, string)>, params: seq<string>, decode: string -> Option<string>,
                                        parse: ParameterParser)
    requires |params| == |pairs| && WellFormedPairs(pairs, decode)
    requires forall i :: 0 <= i < |params| ==> parse(params[i]) == Ok((decode(pairs[i].0).value, decode(pairs[i].1).value))
    ensures Collect(params, parse) == Ok(DecodedMap(pairs, decode))
  {
    if pairs != [] {
      var n := |pairs| - 1;
      var init, initParams := pairs[..n], params[..n];
      forall i | 0 <= i < n
        ensures init[i] == pairs[i] && initParams[i] == params[i]
      {
      }
      assert WellFormedPairs(init, decode);
      CollectPairs(init, initParams, decode, parse);
      assert params == initParams + [params[n]];
      CollectSnoc(initParams, params[n], parse);
      var last := pairs[n];
      assert DecodedMap(pairs, decode) == DecodedMap(init, decode)[decode(last.0).value := decode(last.1).value];
    }
  }

  /**
   * A query of one parameter with nothing after its `=` fails with
   * `ArrayIndexOutOfBoundsException` rather than giving the name an empty value.
   */
  lemma EmptyValueFails(name: string, decode: string -> Option<string>)
    requires QueryText(name, decode)
    ensures QueryMapOf(Some(name + "="), decode) == Err(IndexOutOfBounds)
  {
    var q := name + "=";
    assert q == name + ['='] + [];
    SplitAllCons(name, '=', []);
    assert q[|name|] == '=';
    assert SplitAll([], '=') == [[]];
    assert SplitAll(q, '=') == [name, []];
    assert [name, []][..1] == [name];
    assert DropTrailingEmpty([name]) == [name];
    assert DropTrailingEmpty([name, []]) == [name];
    assert '=' in q;
    assert JavaSplit(q, '=') == [name];
    assert '&' !in q;
    assert JavaSplit(q, '&') == [q];
    CollectSnoc([], q, ParameterWith(decode));
    assert [] + [q] == [q];
  }
}
