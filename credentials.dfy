/** The bearer-token check that guards the protected routes (verifyJwt). The
    signature check itself belongs to the JSON Web Token library and is a
    parameter here: `verify` maps a token to the email claim it carries, or to
    None when the library reports an error (bad signature, expired, malformed,
    missing). */
module Credentials {
  import opened Records

  /** What the middleware does with a request: answer 401, answer 403, or pass
      it on with the decoded email. */
  datatype Verdict = NoHeader | Rejected | Verified(email: string)

  /** `s.split(" ")`: the pieces between single spaces, empty pieces included. */
  function SplitOnSpace(s: string): (r: seq<string>)
    ensures |r| >= 1
    ensures forall i :: 0 <= i < |r| ==> ' ' !in r[i]
    decreases |s|
  {
    if s == [] then [""]
    else
      var rest := SplitOnSpace(s[1..]);
      if s[0] == ' ' then [""] + rest
      else [[s[0]] + rest[0]] + rest[1..]
  }

  /** `ps.join(" ")`, the inverse of SplitOnSpace. */
  function JoinWithSpace(ps: seq<string>): string
  {
    if ps == [] then ""
    else if |ps| == 1 then ps[0]
    else ps[0] + " " + JoinWithSpace(ps[1..])
  }

  /** The token is the second piece of the header; a header with no space has none. */
  function TokenOf(header: string): (r: Option<string>)
    ensures r.Some? <==> ' ' in header
    ensures r.Some? ==> ' ' !in r.value
  {
    SplitSingleIffNoSpace(header);
    var pieces := SplitOnSpace(header);
    if |pieces| >= 2 then Some(pieces[1]) else None
  }

  /** verifyJwt: a missing (or empty) Authorization header is answered 401; a
      header whose token is missing or that the library rejects is answered 403;
      otherwise the request goes on with the decoded email. */
  function VerifyJwt(header: Option<string>, verify: string -> Option<string>): (r: Verdict)
    ensures r.NoHeader? <==> header.None? || header.value == ""
    ensures r.Verified? <==>
      header.Some? && header.value != "" && TokenOf(header.value).Some? &&
      verify(TokenOf(header.value).value).Some?
    ensures r.Verified? ==> r.email == verify(TokenOf(header.value).value).value
  {
    match header
    case None => NoHeader
    case Some(h) =>
      if h == "" then NoHeader
      else match TokenOf(h)
        case None => Rejected
        case Some(t) =>
          match verify(t)
          case None => Rejected
          case Some(e) => Verified(e)
  }

  lemma {:induction false} SplitThenJoin(s: string)
    ensures JoinWithSpace(SplitOnSpace(s)) == s
    decreases |s|
  {
    if s != [] {
      SplitThenJoin(s[1..]);
      var rest := SplitOnSpace(s[1..]);
      if s[0] == ' ' {
        assert ([""] + rest)[1..] == rest;
        assert s == " " + s[1..];
      } else {
        var r := [[s[0]] + rest[0]] + rest[1..];
        assert r[0] == [s[0]] + rest[0] && r[1..] == rest[1..];
        if |rest| == 1 {
          assert s == [s[0]] + rest[0];
        } else {
          assert JoinWithSpace(rest) == rest[0] + " " + JoinWithSpace(rest[1..]);
          assert s == [s[0]] + s[1..];
          assert JoinWithSpace(r) == ([s[0]] + rest[0]) + " " + JoinWithSpace(rest[1..]);
        }
      }
    }
  }

  /** Splitting after a space-free prefix glues that prefix onto the first piece. */
  lemma {:induction false} SplitAfterWord(w: string, t: string)
    requires ' ' !in w
    ensures SplitOnSpace(w + t) == [w + SplitOnSpace(t)[0]] + SplitOnSpace(t)[1..]
    decreases |w|
  {
    if w == [] {
      var st := SplitOnSpace(t);
      assert w + t == t && w + st[0] == st[0];
      assert st == [st[0]] + st[1..];
    } else {
      SplitAfterWord(w[1..], t);
      var u, st := w + t, SplitOnSpace(t);
      assert u[0] == w[0] && u[1..] == w[1..] + t;
      var r := SplitOnSpace(u[1..]);
      assert r == [w[1..] + st[0]] + st[1..];
      assert r[0] == w[1..] + st[0] && r[1..] == st[1..];
      assert SplitOnSpace(u) == [[w[0]] + r[0]] + r[1..];
      assert [w[0]] + (w[1..] + st[0]) == w + st[0];
    }
  }

  lemma {:induction false} JoinThenSplit(ps: seq<string>)
    requires |ps| >= 1
    requires forall i :: 0 <= i < |ps| ==> ' ' !in ps[i]
    ensures SplitOnSpace(JoinWithSpace(ps)) == ps
    decreases |ps|
  {
    if |ps| == 1 {
      SplitAfterWord(ps[0], "");
      assert ps[0] + "" == ps[0];
    } else {
      JoinThenSplit(ps[1..]);
      var tail := JoinWithSpace(ps[1..]);
      SplitAfterWord(ps[0], " " + tail);
      assert JoinWithSpace(ps) == ps[0] + (" " + tail);
      assert (" " + tail)[0] == ' ' && (" " + tail)[1..] == tail;
      var v := SplitOnSpace(" " + tail);
      assert v == [""] + ps[1..];
      assert v[0] == "" && v[1..] == ps[1..];
      assert ps[0] + "" == ps[0];
      assert ps == [ps[0]] + ps[1..];
    }
  }

  /** Splitting gives a single piece exactly when there is no space. */
  lemma {:induction false} SplitSingleIffNoSpace(s: string)
    ensures |SplitOnSpace(s)| == 1 <==> ' ' !in s
    decreases |s|
  {
    if s != [] {
      SplitSingleIffNoSpace(s[1..]);
      assert s == [s[0]] + s[1..];
    }
  }

  /** For the usual `<scheme> <token>` header, optionally followed by more
      space-separated text, the token is exactly the text after the first space. */
  lemma BearerToken(scheme: string, token: string, rest: seq<string>)
    requires ' ' !in scheme && ' ' !in token
    requires forall i :: 0 <= i < |rest| ==> ' ' !in rest[i]
    ensures TokenOf(JoinWithSpace([scheme, token] + rest)) == Some(token)
  {
    var ps := [scheme, token] + rest;
    forall i | 0 <= i < |ps| ensures ' ' !in ps[i] {
      if i >= 2 { assert ps[i] == rest[i - 2]; }
    }
    JoinThenSplit(ps);
    assert ps[1] == token;
  }

  /** The verdict on a well-formed bearer header is the library's verdict on its token. */
  lemma BearerVerdict(scheme: string, token: string, verify: string -> Option<string>)
    requires ' ' !in scheme && ' ' !in token
    ensures VerifyJwt(Some(scheme + " " + token), verify) ==
      match verify(token)
      case None => Rejected
      case Some(e) => Verified(e)
  {
    assert JoinWithSpace([scheme, token]) == scheme + " " + token;
    BearerToken(scheme, token, []);
    assert [scheme, token] + [] == [scheme, token];
  }

  /** A non-empty header with no space never reaches the library and is answered 403. */
  lemma NoSpaceRejected(h: string, verify: string -> Option<string>)
    requires h != "" && ' ' !in h
    ensures VerifyJwt(Some(h), verify) == Rejected
  {
  }
}
