/** The CGI bridge of WebservCgi.cpp, apart from the process calls: the
    meta-variables of section 4.1 of RFC 3875 as the server builds them,
    and the bookkeeping of the two pipes that link a client to its
    script. */
module Cgi {
  import opened Wrappers
  import opened Strings
  import opened Http

  /** struct CgiData: the child's pid and the two pipe ends the server
      holds, 0 when absent. */
  datatype CgiData = CgiData(pid: int, clientFd: int, fdIn: int, fdOut: int)

  const NoCgi: CgiData := CgiData(0, 0, 0, 0)

  // ---------------------------------------------------------------------
  // _createEnvp

  /** The variable name for a key: '-' becomes '_' and every other
      character is upper-cased. */
  function EnvName(key: string): (name: string)
    ensures |name| == |key|
    ensures forall i :: 0 <= i < |key| ==> name[i] == if key[i] == '-' then '_' else ToUpper(key[i])
  {
    seq(|key|, i requires 0 <= i < |key| => if key[i] == '-' then '_' else ToUpper(key[i]))
  }

  /** One envp entry. */
  function EnvEntry(key: string, value: string): string
  {
    EnvName(key) + "=" + value
  }

  /** The QUERY_STRING text for the query pairs taken in order: each pair
      as k=v followed by '&', the last one included. */
  function QueryString(pairs: seq<(string, string)>): (q: string)
    ensures pairs != [] ==> BackIs(q, '&')
    ensures pairs == [] <==> q == []
  {
    if pairs == [] then []
    else
      var last := pairs[|pairs| - 1];
      QueryString(pairs[..|pairs| - 1]) + last.0 + "=" + last.1 + "&"
  }

  /** The pairs of params in the order an iteration visits their keys. */
  function Pairs(order: seq<string>, params: map<string, string>): (ps: seq<(string, string)>)
    requires forall i :: 0 <= i < |order| ==> order[i] in params
    ensures |ps| == |order|
    ensures forall i :: 0 <= i < |order| ==> ps[i] == (order[i], params[order[i]])
  {
    seq(|order|, i requires 0 <= i < |order| => (order[i], params[order[i]]))
  }

  /** order lists every key of keys once. */
  predicate IsEnumeration(order: seq<string>, keys: set<string>)
  {
    && (forall i, j :: 0 <= i < j < |order| ==> order[i] != order[j])
    && (forall i :: 0 <= i < |order| ==> order[i] in keys)
    && (forall k :: k in keys ==> k in order)
  }

  /** The environment before QUERY_STRING and REQUEST_METHOD. */
  function BaseEnv(headers: map<string, string>, path: string): map<string, string>
  {
    headers["PATH_INFO" := path]["SERVER_PROTOCOL" := "HTTP/1.1"]["GATEWAY_INTERFACE" := "CGI/1.1"]
  }

  /** env_map once the query pairs are appended: operator[] starts
      QUERY_STRING empty unless a header of that name is already there. */
  function WithQuery(env: map<string, string>, pairs: seq<(string, string)>): map<string, string>
  {
    if pairs == [] then env
    else
      var before := if "QUERY_STRING" in env then env["QUERY_STRING"] else "";
      env["QUERY_STRING" := before + QueryString(pairs)]
  }

  /** env_map as _createEnvp builds it, for params visited in the given
      order. */
  function EnvMap(headers: map<string, string>, path: string, pairs: seq<(string, string)>,
                  m: Method): map<string, string>
  {
    WithQuery(BaseEnv(headers, path), pairs)["REQUEST_METHOD" := MethodName(m)]
  }

  /** The names _createEnvp sets itself. */
  const FixedNames: set<string> :=
    {"PATH_INFO", "SERVER_PROTOCOL", "GATEWAY_INTERFACE", "REQUEST_METHOD", "QUERY_STRING"}

  /** The variables the server sets: PATH_INFO, SERVER_PROTOCOL,
      GATEWAY_INTERFACE and REQUEST_METHOD. */
  lemma EnvFixedVariables(headers: map<string, string>, path: string, pairs: seq<(string, string)>, m: Method)
    ensures var env := EnvMap(headers, path, pairs, m);
      && env["PATH_INFO"] == path
      && env["SERVER_PROTOCOL"] == "HTTP/1.1"
      && env["GATEWAY_INTERFACE"] == "CGI/1.1"
      && env["REQUEST_METHOD"] == MethodName(m)
  {
  }

  /** The variables are the request headers plus the fixed ones, with
      QUERY_STRING only when there are query pairs or a header of that
      name; a header whose name the server does not set keeps its value. */
  lemma EnvKeys(headers: map<string, string>, path: string, pairs: seq<(string, string)>, m: Method)
    ensures var env := EnvMap(headers, path, pairs, m);
      && env.Keys == headers.Keys + {"PATH_INFO", "SERVER_PROTOCOL", "GATEWAY_INTERFACE", "REQUEST_METHOD"}
           + (if pairs == [] then {} else {"QUERY_STRING"})
      && forall k :: k in headers && k !in FixedNames ==> env[k] == headers[k]
  {
  }

  /** QUERY_STRING ends with the pairs' text, '&' last; without a header of
      that name it is exactly that text. */
  lemma EnvQuery(headers: map<string, string>, path: string, pairs: seq<(string, string)>, m: Method)
    requires pairs != []
    ensures var env := EnvMap(headers, path, pairs, m);
      && "QUERY_STRING" in env
      && EndsWith(env["QUERY_STRING"], QueryString(pairs))
      && BackIs(env["QUERY_STRING"], '&')
      && ("QUERY_STRING" !in headers ==> env["QUERY_STRING"] == QueryString(pairs))
  {
    var base := BaseEnv(headers, path);
    var before := if "QUERY_STRING" in base then base["QUERY_STRING"] else "";
    BaseEnvQuery(headers, path);
    WithQueryValue(base, pairs);
    EndsWithAppended(before, QueryString(pairs));
  }

  /** BaseEnv holds QUERY_STRING exactly when the headers do. */
  lemma BaseEnvQuery(headers: map<string, string>, path: string)
    ensures "QUERY_STRING" in BaseEnv(headers, path) <==> "QUERY_STRING" in headers
    ensures "QUERY_STRING" in headers ==> BaseEnv(headers, path)["QUERY_STRING"] == headers["QUERY_STRING"]
  {
  }

  /** The pairs' text is appended to what QUERY_STRING held, and the method
      name set after it leaves it alone. */
  lemma WithQueryValue(base: map<string, string>, pairs: seq<(string, string)>)
    requires pairs != []
    ensures var before := if "QUERY_STRING" in base then base["QUERY_STRING"] else "";
      var env := WithQuery(base, pairs);
      && "QUERY_STRING" in env && env["QUERY_STRING"] == before + QueryString(pairs)
  {
  }

  lemma EndsWithAppended(before: string, q: string)
    requires q != []
    ensures EndsWith(before + q, q) && (BackIs(q, '&') ==> BackIs(before + q, '&'))
    ensures before == "" ==> before + q == q
  {
    assert (before + q)[|before|..] == q;
  }

  /** A request header becomes a variable without the HTTP_ prefix that
      section 4.1.18 of RFC 3875 asks for: "User-Agent" is USER_AGENT. */
  lemma HeaderVariableUnprefixed(value: string)
    ensures EnvEntry("User-Agent", value) == "USER_AGENT=" + value
  {
    var n := EnvName("User-Agent");
    assert n == [n[0], n[1], n[2], n[3], n[4], n[5], n[6], n[7], n[8], n[9]];
  }

  /** The variable name the inner loop of _createEnvp builds. */
  method VarName(key: string) returns (name: string)
    ensures name == EnvName(key)
  {
    name := "";
    var i := 0;
    while i < |key|
      invariant 0 <= i <= |key|
      invariant |name| == i
      invariant forall j :: 0 <= j < i ==> name[j] == if key[j] == '-' then '_' else ToUpper(key[j])
    {
      if key[i] == '-' {
        name := name + ['_'];
      } else {
        name := name + [ToUpper(key[i])];
      }
      i := i + 1;
    }
  }

  /** _createEnvp: env_map from the headers, the path, the query pairs in
      paramOrder and the method, then one "NAME=value" entry per key of
      env_map, in keyOrder (the map's iteration order); the NULL that ends
      envp is implicit. */
  method CreateEnvp(headers: map<string, string>, params: map<string, string>, reqPath: string,
                    m: Method, paramOrder: seq<string>, keyOrder: seq<string>)
    returns (envp: seq<string>)
    requires IsEnumeration(paramOrder, params.Keys)
    requires IsEnumeration(keyOrder, EnvMap(headers, reqPath, Pairs(paramOrder, params), m).Keys)
    ensures var env := EnvMap(headers, reqPath, Pairs(paramOrder, params), m);
      && |envp| == |keyOrder| == |env|
      && forall i :: 0 <= i < |envp| ==> envp[i] == EnvEntry(keyOrder[i], env[keyOrder[i]])
  {
    var envMap := BuildEnvMap(headers, params, reqPath, m, paramOrder);
    envp := EnvEntries(envMap, keyOrder);
  }

  /** The first half of _createEnvp: env_map. */
  method BuildEnvMap(headers: map<string, string>, params: map<string, string>, reqPath: string,
                     m: Method, paramOrder: seq<string>)
    returns (envMap: map<string, string>)
    requires IsEnumeration(paramOrder, params.Keys)
    ensures envMap == EnvMap(headers, reqPath, Pairs(paramOrder, params), m)
  {
    envMap := headers;
    envMap := envMap["PATH_INFO" := reqPath];
    envMap := envMap["SERVER_PROTOCOL" := "HTTP/1.1"];
    envMap := envMap["GATEWAY_INTERFACE" := "CGI/1.1"];
    ghost var base := envMap;
    ghost var pairs := Pairs(paramOrder, params);
    var i := 0;
    while i < |paramOrder|
      invariant 0 <= i <= |paramOrder|
      invariant envMap == WithQuery(base, pairs[..i])
    {
      WithQueryStep(base, pairs, i);
      var k := paramOrder[i];
      assert pairs[i] == (k, params[k]);
      var qs := if "QUERY_STRING" in envMap then envMap["QUERY_STRING"] else "";
      qs := qs + k;
      qs := qs + "=";
      qs := qs + params[k];
      qs := qs + "&";
      envMap := envMap["QUERY_STRING" := qs];
      i := i + 1;
    }
    assert pairs[..i] == pairs;
    envMap := envMap["REQUEST_METHOD" := MethodName(m)];
  }

  /** The second half of _createEnvp: the entries of env_map in keyOrder. */
  method EnvEntries(envMap: map<string, string>, keyOrder: seq<string>) returns (envp: seq<string>)
    requires IsEnumeration(keyOrder, envMap.Keys)
    ensures |envp| == |keyOrder| == |envMap|
    ensures forall i :: 0 <= i < |envp| ==> envp[i] == EnvEntry(keyOrder[i], envMap[keyOrder[i]])
  {
    EnumerationSize(keyOrder, envMap.Keys);
    envp := [];
    var j := 0;
    while j < |keyOrder|
      invariant 0 <= j <= |keyOrder|
      invariant |envp| == j
      invariant forall t :: 0 <= t < j ==> envp[t] == EnvEntry(keyOrder[t], envMap[keyOrder[t]])
    {
      var name := VarName(keyOrder[j]);
      var tempStr := name + ("=" + envMap[keyOrder[j]]);
      assert tempStr == EnvEntry(keyOrder[j], envMap[keyOrder[j]]);
      envp := envp + [tempStr];
      j := j + 1;
    }
  }

  /** One more query pair appends "k=v&" to QUERY_STRING, which
      operator[] first creates empty when absent. */
  lemma WithQueryStep(env: map<string, string>, pairs: seq<(string, string)>, i: nat)
    requires i < |pairs|
    ensures var e := WithQuery(env, pairs[..i]);
      var before := if "QUERY_STRING" in e then e["QUERY_STRING"] else "";
      WithQuery(env, pairs[..i + 1]) == e["QUERY_STRING" := before + pairs[i].0 + "=" + pairs[i].1 + "&"]
  {
    var front := pairs[..i];
    var p := pairs[i];
    assert pairs[..i + 1][..i] == front;
    assert pairs[..i + 1][i] == p;
    var b0 := if "QUERY_STRING" in env then env["QUERY_STRING"] else "";
    var piece := p.0 + "=" + p.1 + "&";
    if i == 0 {
      assert front == [];
      assert WithQuery(env, front) == env;
      assert QueryString(pairs[..1]) == "" + p.0 + "=" + p.1 + "&";
      assert "" + p.0 + "=" + p.1 + "&" == piece;
      assert WithQuery(env, pairs[..1]) == env["QUERY_STRING" := b0 + piece];
      assert b0 + piece == b0 + p.0 + "=" + p.1 + "&";
    } else {
      var q := QueryString(front);
      assert WithQuery(env, front) == env["QUERY_STRING" := b0 + q];
      assert QueryString(pairs[..i + 1]) == q + p.0 + "=" + p.1 + "&";
      assert WithQuery(env, pairs[..i + 1]) == env["QUERY_STRING" := b0 + (q + p.0 + "=" + p.1 + "&")];
      assert b0 + (q + p.0 + "=" + p.1 + "&") == b0 + q + p.0 + "=" + p.1 + "&";
    }
  }

  /** An enumeration has as many elements as the set it lists. */
  lemma {:induction false} EnumerationSize(order: seq<string>, keys: set<string>)
    requires IsEnumeration(order, keys)
    ensures |order| == |keys|
    decreases |order|
  {
    if order != [] {
      var last := order[|order| - 1];
      var front := order[..|order| - 1];
      assert forall i :: 0 <= i < |front| ==> front[i] != last;
      forall k | k in keys - {last}
        ensures k in front
      {
        var i :| 0 <= i < |order| && order[i] == k;
        assert i < |front|;
      }
      EnumerationSize(front, keys - {last});
    }
  }

  // ---------------------------------------------------------------------
  // _closeCgiPipe

  /** What _closeCgiPipe leaves: the new CgiData, the pipe map, the fds it
      closes and the pids it kills, in order.  Closing the body pipe
      (fd_out) only forgets it; closing any other fd tears the link down:
      fd_in is zeroed, the body pipe is closed too when still open, and the
      child is killed. */
  function ClosePipe(pipeFd: int, cgi: CgiData, pipes: map<int, int>)
    : (r: (CgiData, map<int, int>, seq<int>, seq<int>))
    ensures pipeFd == cgi.fdOut ==>
      r == (cgi.(fdOut := 0), pipes - {pipeFd}, [pipeFd], [])
    ensures pipeFd != cgi.fdOut ==>
      && r.0 == cgi.(fdIn := 0, fdOut := 0, pid := 0)
      && r.1 == pipes - {pipeFd} - (if cgi.fdOut != 0 then {cgi.fdOut} else {})
      && r.2 == [pipeFd] + (if cgi.fdOut != 0 then [cgi.fdOut] else [])
      && r.3 == [cgi.pid]
  {
    if pipeFd == cgi.fdOut then (cgi.(fdOut := 0), pipes - {pipeFd}, [pipeFd], [])
    else if cgi.fdOut != 0 then
      (cgi.(fdIn := 0, fdOut := 0, pid := 0), pipes - {pipeFd} - {cgi.fdOut}, [pipeFd, cgi.fdOut], [cgi.pid])
    else (cgi.(fdIn := 0, pid := 0), pipes - {pipeFd}, [pipeFd], [cgi.pid])
  }

  /** Closing the output pipe leaves no pipe of the link registered and no
      child; closing the body pipe leaves fd_in and the child alone. */
  lemma ClosePipeTeardown(cgi: CgiData, pipes: map<int, int>)
    requires cgi.fdIn != cgi.fdOut
    ensures var r := ClosePipe(cgi.fdIn, cgi, pipes);
      && r.0.fdIn == 0 && r.0.fdOut == 0 && r.0.pid == 0 && r.0.clientFd == cgi.clientFd
      && cgi.fdIn !in r.1 && (cgi.fdOut != 0 ==> cgi.fdOut !in r.1)
      && (forall p :: p in r.1 ==> p in pipes && r.1[p] == pipes[p])
      && r.3 == [cgi.pid]
    ensures cgi.fdOut != 0 ==>
      var r := ClosePipe(cgi.fdOut, cgi, pipes);
      && r.0 == cgi.(fdOut := 0)
      && cgi.fdOut !in r.1 && r.3 == []
  {
  }
}
