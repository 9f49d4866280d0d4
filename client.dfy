/**
 * The API client's pure logic (frontend/src/api/client.js): the query string
 * built from a parameter object, and the rule that retries a request once
 * after refreshing the session when it is answered 401 or 403.
 */
module Client {
  import opened Common

  // ---------------------------------------------------------------------------
  // buildQuery

  /** A parameter value as JavaScript sees it. */
  datatype Param = Undefined | Null | Str(s: string) | Int(i: int) | Bool(b: bool)

  /** Undefined, null and the empty string are dropped; everything else, 0 and false included, is kept. */
  predicate Kept(v: Param) {
    !(v.Undefined? || v.Null? || v == Str(""))
  }

  /** `String(value)`. */
  function Text(v: Param): (r: string) {
    match v
    case Str(s) => s
    case Int(i) => IntToString(i)
    case Bool(b) => if b then "true" else "false"
    case Null => "null"
    case Undefined => "undefined"
  }

  /** The entries of the cleaned object, in order, with their values as strings. */
  function Clean(params: seq<(string, Param)>): (r: seq<(string, string)>) {
    if params == [] then []
    else
      var rest := Clean(params[..|params| - 1]);
      var (k, v) := params[|params| - 1];
      if Kept(v) then rest + [(k, Text(v))] else rest
  }

  // application/x-www-form-urlencoded serialisation, as URLSearchParams does it

  predicate Unreserved(c: char) {
    ('a' <= c <= 'z') || ('A' <= c <= 'Z') || ('0' <= c <= '9') || c == '*' || c == '-' || c == '.' || c == '_'
  }

  function HexDigit(d: nat): (c: char)
    requires d < 16
    ensures ('0' <= c <= '9') || ('A' <= c <= 'F')
  {
    if d < 10 then ('0' as int + d) as char else ('A' as int + d - 10) as char
  }

  /** The UTF-8 bytes of one character. */
  function Utf8(c: char): (bytes: seq<nat>)
    ensures 1 <= |bytes| <= 4 && forall i :: 0 <= i < |bytes| ==> bytes[i] < 256
  {
    var n := c as int;
    if n < 0x80 then [n]
    else if n < 0x800 then [0xC0 + n / 64, 0x80 + n % 64]
    else if n < 0x1_0000 then [0xE0 + n / 4096, 0x80 + (n / 64) % 64, 0x80 + n % 64]
    else [0xF0 + n / 262144, 0x80 + (n / 4096) % 64, 0x80 + (n / 64) % 64, 0x80 + n % 64]
  }

  function PercentBytes(bytes: seq<nat>): (r: string)
    requires forall i :: 0 <= i < |bytes| ==> bytes[i] < 256
  {
    if bytes == [] then "" else ['%', HexDigit(bytes[0] / 16), HexDigit(bytes[0] % 16)] + PercentBytes(bytes[1..])
  }

  function EncodeChar(c: char): (r: string) {
    if Unreserved(c) then [c] else if c == ' ' then "+" else PercentBytes(Utf8(c))
  }

  function FormEncode(s: string): (r: string) {
    if s == [] then "" else EncodeChar(s[0]) + FormEncode(s[1..])
  }

  function Pairs(entries: seq<(string, string)>): (r: seq<string>)
    ensures |r| == |entries|
  {
    if entries == [] then [] else [FormEncode(entries[0].0) + "=" + FormEncode(entries[0].1)] + Pairs(entries[1..])
  }

  /** What `buildQuery(params)` returns. */
  function QueryString(params: seq<(string, Param)>): (r: string) {
    var entries := Clean(params);
    if entries == [] then "" else "?" + Join(Pairs(entries), "&")
  }

  /** `buildQuery`: the accumulator loop over the entries, then the serialisation. */
  method BuildQuery(params: seq<(string, Param)>) returns (qs: string)
    ensures qs == QueryString(params)
  {
    var clean: seq<(string, string)> := [];
    var i := 0;
    while i < |params|
      invariant 0 <= i <= |params|
      invariant clean == Clean(params[..i])
    {
      var (key, value) := params[i];
      if Kept(value) {
        clean := clean + [(key, Text(value))];
      }
      assert params[..i + 1][..i] == params[..i];
      i := i + 1;
    }
    assert params[..i] == params;
    if clean == [] {
      qs := "";
    } else {
      qs := "?" + Join(Pairs(clean), "&");
    }
  }

  // ---------------------------------------------------------------------------
  // fetchJSON / fetchBlob

  /** What a request is answered with: its status and the `message` of its JSON body, if any. */
  datatype Reply = Reply(status: int, message: Option<string>)

  /** The server as the client sees it: the answer to the n-th request of the call, and the answer to the refresh request. */
  datatype Server = Server(answer: nat -> Reply, refresh: Reply)

  /** How a call ends: with the answer's status, or with an error carrying a status and a message. */
  datatype Settled = Resolved(status: int) | Raised(status: int, message: string)

  /** The call's outcome and the paths it requested, in order. */
  datatype Trace = Trace(requests: seq<string>, settled: Settled)

  const RefreshPath := "/auth/refresh"

  predicate IsOk(r: Reply) {
    200 <= r.status <= 299
  }

  predicate AuthFailure(r: Reply) {
    r.status == 401 || r.status == 403
  }

  /**
   * `fetchJSON(path, {skipAuthRefresh: skip})` (and `fetchBlob`, which follows
   * the same rule), as the n-th request of the call: an auth failure on a
   * path other than the refresh endpoint, when refreshing is not skipped,
   * refreshes the session and, if that succeeds, asks again with refreshing
   * skipped.
   */
  function Fetch(path: string, skip: bool, server: Server, n: nat): (r: Trace)
    decreases if skip then 0 else 1
  {
    var res := server.answer(n);
    if AuthFailure(res) && !skip && path != RefreshPath then
      var refresh := server.refresh;
      if !IsOk(refresh) then
        Trace([path, RefreshPath], Raised(refresh.status, if Present(refresh.message) then refresh.message.value else "Session refresh failed"))
      else
        var retry := Fetch(path, true, server, n + 1);
        Trace([path, RefreshPath] + retry.requests, retry.settled)
    else if !IsOk(res) then
      Trace([path], Raised(res.status, if Present(res.message) then res.message.value else "Request failed"))
    else
      Trace([path], Resolved(res.status))
  }

  // ---------------------------------------------------------------------------
  // Properties of buildQuery

  /** The cleaned entries are exactly the kept ones, as strings. */
  lemma {:induction false} CleanSpec(params: seq<(string, Param)>)
    ensures |Clean(params)| <= |params|
    ensures forall k, t :: (k, t) in Clean(params) <==>
      exists i :: 0 <= i < |params| && params[i].0 == k && Kept(params[i].1) && Text(params[i].1) == t
  {
    if params != [] {
      var init := params[..|params| - 1];
      CleanSpec(init);
      forall k, t ensures (k, t) in Clean(params) <==>
        exists i :: 0 <= i < |params| && params[i].0 == k && Kept(params[i].1) && Text(params[i].1) == t
      {
        if (exists i :: 0 <= i < |params| && params[i].0 == k && Kept(params[i].1) && Text(params[i].1) == t) {
          var i :| 0 <= i < |params| && params[i].0 == k && Kept(params[i].1) && Text(params[i].1) == t;
          if i < |params| - 1 {
            assert init[i] == params[i];
          }
        }
        if (k, t) in Clean(init) {
          var i :| 0 <= i < |init| && init[i].0 == k && Kept(init[i].1) && Text(init[i].1) == t;
          assert params[i] == init[i];
        }
      }
    }
  }

  /** Cleaning keeps the entries' order: it distributes over concatenation. */
  lemma {:induction false} CleanConcat(a: seq<(string, Param)>, b: seq<(string, Param)>)
    ensures Clean(a + b) == Clean(a) + Clean(b)
  {
    if b == [] {
      assert a + b == a;
    } else {
      var b' := b[..|b| - 1];
      assert (a + b)[..|a + b| - 1] == a + b';
      CleanConcat(a, b');
    }
  }

  /** Zero and false are kept; undefined, null and "" are dropped. */
  lemma CleanSingle(k: string, v: Param)
    ensures Clean([(k, v)]) == if Kept(v) then [(k, Text(v))] else []
    ensures Clean([(k, Int(0))]) == [(k, "0")] && Clean([(k, Bool(false))]) == [(k, "false")]
  {
    assert [(k, v)][..0] == [];
    assert [(k, Int(0))][..0] == [];
    assert [(k, Bool(false))][..0] == [];
  }

  /** The query string is empty exactly when no entry is kept, and otherwise starts with "?". */
  lemma QueryEmptyIff(params: seq<(string, Param)>)
    ensures QueryString(params) == "" <==> forall i :: 0 <= i < |params| ==> !Kept(params[i].1)
    ensures QueryString(params) != "" ==> QueryString(params)[0] == '?'
  {
    CleanSpec(params);
    if exists i :: 0 <= i < |params| && Kept(params[i].1) {
      var i :| 0 <= i < |params| && Kept(params[i].1);
      assert (params[i].0, Text(params[i].1)) in Clean(params);
    } else if Clean(params) != [] {
      var e := Clean(params)[0];
      assert e in Clean(params);
    }
  }

  predicate Encoded(c: char) {
    Unreserved(c) || c == '+' || c == '%'
  }

  lemma {:induction false} PercentBytesChars(bytes: seq<nat>)
    requires forall i :: 0 <= i < |bytes| ==> bytes[i] < 256
    ensures forall i :: 0 <= i < |PercentBytes(bytes)| ==> Encoded(PercentBytes(bytes)[i])
  {
    if bytes != [] {
      PercentBytesChars(bytes[1..]);
    }
  }

  /** A form-encoded string uses only unreserved characters, '+' and '%': never '&' or '='. */
  lemma {:induction false} FormEncodeChars(s: string)
    ensures forall i :: 0 <= i < |FormEncode(s)| ==> Encoded(FormEncode(s)[i])
    ensures '&' !in FormEncode(s) && '=' !in FormEncode(s)
  {
    if s != [] {
      FormEncodeChars(s[1..]);
      if !Unreserved(s[0]) && s[0] != ' ' {
        PercentBytesChars(Utf8(s[0]));
      }
      var e := EncodeChar(s[0]);
      assert forall i :: 0 <= i < |e| ==> Encoded(e[i]);
    }
  }

  lemma PairShape(k: string, v: string)
    ensures '&' !in FormEncode(k) + "=" + FormEncode(v)
    ensures Split(FormEncode(k) + "=" + FormEncode(v), '=') == [FormEncode(k), FormEncode(v)]
  {
    FormEncodeChars(k);
    FormEncodeChars(v);
    SplitPrefix(FormEncode(k), FormEncode(v), '=');
    SplitFree(FormEncode(v), '=');
  }

  lemma {:induction false} PairsSpec(entries: seq<(string, string)>)
    ensures forall i :: 0 <= i < |entries| ==> Pairs(entries)[i] == FormEncode(entries[i].0) + "=" + FormEncode(entries[i].1)
  {
    if entries != [] {
      PairsSpec(entries[1..]);
    }
  }

  /**
   * The query string reads back: after the "?", splitting on '&' gives one
   * piece per kept entry, in order, and splitting each piece on '=' gives the
   * encoded key and value.
   */
  lemma QueryReadsBack(params: seq<(string, Param)>)
    requires QueryString(params) != ""
    ensures var entries := Clean(params);
      var pieces := Split(QueryString(params)[1..], '&');
      && |pieces| == |entries|
      && forall i :: 0 <= i < |entries| ==> Split(pieces[i], '=') == [FormEncode(entries[i].0), FormEncode(entries[i].1)]
  {
    var entries := Clean(params);
    var pairs := Pairs(entries);
    PairsSpec(entries);
    forall i | 0 <= i < |pairs| ensures '&' !in pairs[i] {
      PairShape(entries[i].0, entries[i].1);
    }
    assert QueryString(params)[1..] == Join(pairs, "&");
    SplitJoin(pairs, '&');
    forall i | 0 <= i < |entries| ensures Split(pairs[i], '=') == [FormEncode(entries[i].0), FormEncode(entries[i].1)] {
      PairShape(entries[i].0, entries[i].1);
    }
  }

  // ---------------------------------------------------------------------------
  // Properties of the refresh-and-retry rule

  /** How a final answer settles the call. */
  function SettleOn(r: Reply): (res: Settled) {
    if IsOk(r) then Resolved(r.status) else Raised(r.status, if Present(r.message) then r.message.value else "Request failed")
  }

  /**
   * A call makes at most one refresh and at most one retry: it either settles
   * on the first answer; or, after an auth failure it may refresh on, fails
   * with the refresh's error; or settles on the retry's answer, whatever that is.
   */
  lemma FetchOutcomes(path: string, skip: bool, server: Server, n: nat)
    ensures var t := Fetch(path, skip, server, n);
      var first := server.answer(n);
      var refreshes := AuthFailure(first) && !skip && path != RefreshPath;
      && (!refreshes ==> t == Trace([path], SettleOn(first)))
      && (refreshes && !IsOk(server.refresh) ==>
            t.requests == [path, RefreshPath] && t.settled.Raised? && t.settled.status == server.refresh.status
            && t.settled.message == (if Present(server.refresh.message) then server.refresh.message.value else "Session refresh failed"))
      && (refreshes && IsOk(server.refresh) ==>
            t == Trace([path, RefreshPath, path], SettleOn(server.answer(n + 1))))
  {
  }

  /** A call with refreshing skipped, or a call to the refresh endpoint itself, makes exactly one request. */
  lemma NoRefreshWhenSkippedOrRefreshing(path: string, skip: bool, server: Server, n: nat)
    requires skip || path == RefreshPath
    ensures Fetch(path, skip, server, n) == Trace([path], SettleOn(server.answer(n)))
  {
  }

  /** Hence the refresh endpoint is requested at most once per call, and the path at most twice. */
  lemma AtMostOneRetry(path: string, skip: bool, server: Server, n: nat)
    ensures var rs := Fetch(path, skip, server, n).requests;
      && 1 <= |rs| <= 3 && rs[0] == path
      && (path != RefreshPath ==> multiset(rs)[RefreshPath] <= 1 && multiset(rs)[path] <= 2)
      && (path == RefreshPath ==> rs == [RefreshPath])
  {
    FetchOutcomes(path, skip, server, n);
  }
}
