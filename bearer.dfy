/** How both guards read a token from the Authorization header:
    `const [, token] = request.headers.authorization?.split(' ') ?? []`. */
module BearerHeader {
  import opened Wrappers

  /** The pieces joined back with single spaces. */
  function Join(pieces: seq<string>): string
    requires |pieces| >= 1
  {
    if |pieces| == 1 then pieces[0] else pieces[0] + " " + Join(pieces[1..])
  }

  /** `s.split(' ')`: the maximal space-free pieces, empty ones included. */
  function Split(s: string): (r: seq<string>)
    ensures |r| >= 1
    ensures forall i :: 0 <= i < |r| ==> ' ' !in r[i]
  {
    if s == [] then [""]
    else
      var rest := Split(s[1..]);
      if s[0] == ' ' then [""] + rest
      else [[s[0]] + rest[0]] + rest[1..]
  }

  /** Joining the pieces back with single spaces gives the string split. */
  lemma {:induction false} JoinSplit(s: string)
    ensures Join(Split(s)) == s
    decreases |s|
  {
    if s != [] {
      var rest := Split(s[1..]);
      JoinSplit(s[1..]);
      assert s == [s[0]] + s[1..];
      if s[0] == ' ' {
        assert ([""] + rest)[1..] == rest;
      } else {
        JoinPrepend(s[0], rest);
      }
    }
  }

  /** Prepending a character to the first piece prepends it to the joined string. */
  lemma {:induction false} JoinPrepend(c: char, pieces: seq<string>)
    requires |pieces| >= 1
    ensures Join([[c] + pieces[0]] + pieces[1..]) == [c] + Join(pieces)
  {
    var r := [[c] + pieces[0]] + pieces[1..];
    assert r[0] == [c] + pieces[0] && r[1..] == pieces[1..];
    if |pieces| > 1 {
      var tail := Join(pieces[1..]);
      assert Join(pieces) == pieces[0] + " " + tail;
      assert Join(r) == ([c] + pieces[0]) + " " + tail;
    }
  }

  /** There is a second piece exactly when the string has a space. */
  lemma {:induction false} SplitHasSecondPiece(s: string)
    ensures |Split(s)| >= 2 <==> ' ' in s
    decreases |s|
  {
    if s != [] {
      SplitHasSecondPiece(s[1..]);
      assert s == [s[0]] + s[1..];
      assert ' ' in s <==> s[0] == ' ' || ' ' in s[1..];
    }
  }

  /** A header word followed by a space starts a new piece. */
  lemma {:induction false} SplitAfterWord(w: string, t: string)
    requires ' ' !in w
    ensures Split(w + " " + t) == [w] + Split(t)
    decreases |w|
  {
    var s := w + " " + t;
    if w == [] {
      assert s[0] == ' ' && s[1..] == t;
    } else {
      assert s[0] == w[0] && s[1..] == w[1..] + " " + t;
      SplitAfterWord(w[1..], t);
      var rest := Split(s[1..]);
      assert rest == [w[1..]] + Split(t);
      assert [w[0]] + w[1..] == w;
      assert Split(s) == [[w[0]] + rest[0]] + rest[1..];
      assert rest[1..] == Split(t);
    }
  }

  /** Splitting undoes joining, for space-free pieces. */
  lemma {:induction false} SplitJoin(pieces: seq<string>)
    requires |pieces| >= 1
    requires forall i :: 0 <= i < |pieces| ==> ' ' !in pieces[i]
    ensures Split(Join(pieces)) == pieces
    decreases |pieces|
  {
    if |pieces| == 1 {
      var r := Split(pieces[0]);
      SplitHasSecondPiece(pieces[0]);
      JoinSplit(pieces[0]);
      assert Join(r) == r[0];
    } else {
      SplitJoin(pieces[1..]);
      SplitAfterWord(pieces[0], Join(pieces[1..]));
      assert [pieces[0]] + pieces[1..] == pieces;
    }
  }

  /** The token: the second piece of the header, or nothing when there is no header or no space. */
  function Extract(authorization: Option<string>): (token: Option<string>)
    ensures token.Some? <==> authorization.Some? && ' ' in authorization.value
    ensures token.Some? ==> ' ' !in token.value
  {
    match authorization
    case None => None
    case Some(header) =>
      var pieces := Split(header);
      SplitHasSecondPiece(header);
      if |pieces| < 2 then None else Some(pieces[1])
  }

  /** "X abc" gives "abc" and "a b c" gives "b": the word before the first space, whatever it
      is, is skipped and the token ends at the next space. */
  lemma ExtractSecondWord(scheme: string, token: string, tail: Option<string>)
    requires ' ' !in scheme && ' ' !in token
    ensures Extract(Some(scheme + " " + token + (if tail.Some? then " " + tail.value else ""))) == Some(token)
  {
    var rest := token + (if tail.Some? then " " + tail.value else "");
    assert scheme + " " + token + (if tail.Some? then " " + tail.value else "") == scheme + " " + rest;
    SplitAfterWord(scheme, rest);
    if tail.Some? {
      assert rest == token + " " + tail.value;
      SplitAfterWord(token, tail.value);
      assert Split(rest)[0] == token;
    } else {
      assert rest == token;
      SplitJoin([token]);
      assert Join([token]) == token;
    }
  }

  /** Two spaces after the scheme leave an empty token. */
  lemma DoubleSpaceGivesEmptyToken()
    ensures Extract(Some("Bearer  abc")) == Some("")
  {
    assert "Bearer  abc" == "Bearer" + " " + " abc";
    SplitAfterWord("Bearer", " abc");
    assert Split(" abc")[0] == "";
  }
}
