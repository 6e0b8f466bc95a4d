/** The HTTP flavour of a service call (com.zidsoft.zdlib.service.ServiceCallHttp):
    how the request URL and the query string are built from the parameters.
    The connection, the streams and the response handling are not modelled. */
module ServiceCallHttp {
  import opened Lang

  /** ServiceCallHttp.CONNECT_TIMEOUT_DEFAULT and READ_TIMEOUT_DEFAULT, in milliseconds. */
  const CONNECT_TIMEOUT_DEFAULT: int := 60 * 1000
  const READ_TIMEOUT_DEFAULT: int := 60 * 1000

  /** ServiceCallHttp.Param: a name and a nullable value. */
  datatype Param = Param(name: string, value: Option<string>)

  /** "name=value" with both halves URL-encoded by `enc`; a null value is sent as "". */
  function Piece(p: Param, enc: string -> string): string
  {
    enc(p.name) + "=" + enc(if p.value.Some? then p.value.value else "")
  }

  /** The pieces of the query, one per parameter, in list order. */
  function Pieces(params: seq<Param>, enc: string -> string): (r: seq<string>)
    ensures |r| == |params|
    ensures forall i :: 0 <= i < |params| ==> r[i] == Piece(params[i], enc)
  {
    seq(|params|, i requires 0 <= i < |params| => Piece(params[i], enc))
  }

  /** android.text.TextUtils.join: the strings with sep between each two;
      the empty list joins to "". */
  function Join(sep: string, pieces: seq<string>): string
  {
    if |pieces| == 0 then ""
    else if |pieces| == 1 then pieces[0]
    else pieces[0] + sep + Join(sep, pieces[1..])
  }

  /** The first index of c in s, or -1 (String.indexOf). */
  function IndexOf(s: string, c: char): (r: int)
    ensures -1 <= r < |s|
    ensures r == -1 <==> c !in s
    ensures r >= 0 ==> s[r] == c && c !in s[..r]
  {
    if |s| == 0 then -1
    else if s[0] == c then 0
    else
      var k := IndexOf(s[1..], c);
      if k == -1 then -1
      else
        assert s[..k + 1] == [s[0]] + s[1..][..k];
        k + 1
  }

  /** The inverse of Join with a one-character separator: the text between
      consecutive occurrences of c. */
  function Split(s: string, c: char): (r: seq<string>)
    ensures |r| >= 1
    decreases |s|
  {
    var i := IndexOf(s, c);
    if i < 0 then [s] else [s[..i]] + Split(s[i + 1..], c)
  }

  lemma {:induction false} IndexOfAfter(a: string, c: char, b: string)
    requires c !in a
    ensures IndexOf(a + [c] + b, c) == |a|
  {
    if |a| > 0 {
      assert (a + [c] + b)[1..] == a[1..] + [c] + b;
      IndexOfAfter(a[1..], c, b);
    }
  }

  /** Splitting at the first separator takes off the text before it. */
  lemma SplitFirst(a: string, c: char, b: string)
    requires c !in a
    ensures Split(a + [c] + b, c) == [a] + Split(b, c)
  {
    var s := a + [c] + b;
    IndexOfAfter(a, c, b);
    assert s[..|a|] == a;
    assert s[|a| + 1..] == b;
  }

  /** Splitting a join at a separator that no piece contains gives the pieces back. */
  lemma {:induction false} SplitJoin(pieces: seq<string>, c: char)
    requires |pieces| >= 1
    requires forall i :: 0 <= i < |pieces| ==> c !in pieces[i]
    ensures Split(Join([c], pieces), c) == pieces
  {
    if |pieces| > 1 {
      var rest := Join([c], pieces[1..]);
      assert Join([c], pieces) == pieces[0] + [c] + rest;
      assert c !in pieces[0];
      SplitFirst(pieces[0], c, rest);
      SplitJoin(pieces[1..], c);
      assert pieces == [pieces[0]] + pieces[1..];
    } else {
      assert c !in pieces[0];
    }
  }

  /** One piece holds no '&' and splits at its '=' into the encoded name
      and the encoded value, when the encoder escapes both. */
  lemma PieceSplits(p: Param, enc: string -> string)
    requires '&' !in enc(p.name) && '=' !in enc(p.name)
    requires var v := enc(if p.value.Some? then p.value.value else ""); '&' !in v && '=' !in v
    ensures '&' !in Piece(p, enc)
    ensures Split(Piece(p, enc), '=') == [enc(p.name), enc(if p.value.Some? then p.value.value else "")]
  {
    var n := enc(p.name);
    var v := enc(if p.value.Some? then p.value.value else "");
    assert Piece(p, enc) == n + ['='] + v;
    SplitFirst(n, '=', v);
  }

  /** URLEncoder escapes '&' and '=', so the query splits back into one piece
      per parameter, and each piece splits at its first '=' into the encoded
      name and the encoded value. */
  lemma QueryRoundTrip(params: seq<Param>, enc: string -> string)
    requires |params| >= 1
    requires forall s :: '&' !in enc(s) && '=' !in enc(s)
    ensures Split(Join("&", Pieces(params, enc)), '&') == Pieces(params, enc)
    ensures forall i :: 0 <= i < |params| ==>
      Split(Pieces(params, enc)[i], '=')
        == [enc(params[i].name), enc(if params[i].value.Some? then params[i].value.value else "")]
  {
    var ps := Pieces(params, enc);
    forall i | 0 <= i < |params|
      ensures '&' !in ps[i]
      ensures Split(ps[i], '=')
        == [enc(params[i].name), enc(if params[i].value.Some? then params[i].value.value else "")]
    {
      PieceSplits(params[i], enc);
    }
    SplitJoin(ps, '&');
  }

  class ServiceCallHttp {
    /** The path of the service below the server base url. */
    const servicePath: string
    /** The name of the service, the last segment of the url. */
    const serviceName: string
    /** isPost(): false in this class; a descendant that overrides it is
        modelled by the constructor that takes it. */
    const post: bool
    var connectTimeout: int
    var readTimeout: int

    /** ServiceCallHttp(servicePath, serviceName) and the variant that also
        takes a command: a GET call with the default timeouts. */
    constructor (servicePath: string, serviceName: string)
      ensures this.servicePath == servicePath && this.serviceName == serviceName
      ensures !post
      ensures connectTimeout == CONNECT_TIMEOUT_DEFAULT && readTimeout == READ_TIMEOUT_DEFAULT
    {
      this.servicePath, this.serviceName, this.post := servicePath, serviceName, false;
      connectTimeout, readTimeout := CONNECT_TIMEOUT_DEFAULT, READ_TIMEOUT_DEFAULT;
    }

    /** A descendant whose isPost() returns `post`. */
    constructor Overriding(servicePath: string, serviceName: string, post: bool)
      ensures this.servicePath == servicePath && this.serviceName == serviceName
      ensures this.post == post
      ensures connectTimeout == CONNECT_TIMEOUT_DEFAULT && readTimeout == READ_TIMEOUT_DEFAULT
    {
      this.servicePath, this.serviceName, this.post := servicePath, serviceName, post;
      connectTimeout, readTimeout := CONNECT_TIMEOUT_DEFAULT, READ_TIMEOUT_DEFAULT;
    }

    /** ServiceCallHttp.setConnectTimeout. */
    method SetConnectTimeout(timeoutMillis: int)
      modifies this
      ensures connectTimeout == timeoutMillis && readTimeout == old(readTimeout)
    {
      connectTimeout := timeoutMillis;
    }

    /** ServiceCallHttp.setReadTimeout. */
    method SetReadTimeout(timeoutMillis: int)
      modifies this
      ensures readTimeout == timeoutMillis && connectTimeout == old(connectTimeout)
    {
      readTimeout := timeoutMillis;
    }

    /** ServiceCallHttp.getQuery: null for a null or empty parameter list,
        otherwise the encoded pieces joined with '&'. `params` is what the
        descendant's getParameters() returned; `enc` is URLEncoder.encode with UTF-8. */
    method GetQuery(params: Option<seq<Param>>, enc: string -> string) returns (query: Option<string>)
      ensures query.None? <==> params.None? || |params.value| == 0
      ensures query.Some? ==> query.value == Join("&", Pieces(params.value, enc))
    {
      if params.None? || |params.value| == 0 {
        return None;
      }
      var ps := params.value;
      var pieces: seq<string> := [];
      var i := 0;
      while i < |ps|
        invariant 0 <= i <= |ps|
        invariant pieces == Pieces(ps[..i], enc)
      {
        var value := if ps[i].value.None? then "" else ps[i].value.value;
        var piece := enc(ps[i].name) + "=" + enc(value);
        pieces := pieces + [piece];
        i := i + 1;
      }
      assert ps[..i] == ps;
      query := Some(Join("&", pieces));
    }

    /** ServiceCallHttp.getPostPayload: the query, as getQuery builds it. */
    method GetPostPayload(params: Option<seq<Param>>, enc: string -> string) returns (payload: Option<string>)
      ensures payload.None? <==> params.None? || |params.value| == 0
      ensures payload.Some? ==> payload.value == Join("&", Pieces(params.value, enc))
    {
      payload := GetQuery(params, enc);
    }

    /** ServiceCallHttp.getURL: the base url (ZDApplication.getServerBaseUrl,
        passed in), the service path, "/" and the service name; a GET call with
        parameters adds "?" and the query. */
    method GetURL(serverBaseUrl: string, params: Option<seq<Param>>, enc: string -> string) returns (url: string)
      ensures post || params.None? || |params.value| == 0 ==>
        url == serverBaseUrl + servicePath + "/" + serviceName
      ensures !post && params.Some? && |params.value| > 0 ==>
        url == serverBaseUrl + servicePath + "/" + serviceName + "?" + Join("&", Pieces(params.value, enc))
    {
      var query: Option<string> := None;
      if !post {
        query := GetQuery(params, enc);
      }
      url := serverBaseUrl + servicePath + "/" + serviceName + (if query.None? then "" else "?" + query.value);
    }
  }
}
