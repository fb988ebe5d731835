/**
 * The credential extraction that the POST, PUT and DELETE handlers of app.js
 * each repeat: take the second space-separated token of the Authorization
 * header (or "" when there is none), base64-decode it, and split the result
 * on ':' into `[email, password]`.
 *
 * This is a partial form of HTTP Basic authentication (section 2 of RFC 7617):
 * the RFC makes the password everything after the FIRST colon, whereas
 * `split(':')` keeps in `password` only the text between the first and the
 * second colon.
 */
module Credentials {
  import opened Wrappers

  /** JavaScript's `String.prototype.split` with a one-character separator. */
  function Split(s: string, sep: char): (parts: seq<string>)
    ensures |parts| >= 1
    ensures forall i :: 0 <= i < |parts| ==> sep !in parts[i]
    ensures |parts| == Occurrences(s, sep) + 1
    decreases |s|
  {
    if s == [] then [""]
    else
      var rest := Split(s[1..], sep);
      if s[0] == sep then [""] + rest
      else [[s[0]] + rest[0]] + rest[1..]
  }

  /** How many times `c` occurs in `s`. */
  function Occurrences(s: string, c: char): nat
    decreases |s|
  {
    if s == [] then 0 else (if s[0] == c then 1 else 0) + Occurrences(s[1..], c)
  }

  /** JavaScript's `Array.prototype.join` with a one-character separator: the inverse of Split. */
  function Join(parts: seq<string>, sep: char): string
    requires |parts| >= 1
    decreases |parts|
  {
    if |parts| == 1 then parts[0] else parts[0] + [sep] + Join(parts[1..], sep)
  }

  /** Splitting and joining again gives back the original string. */
  lemma {:induction false} JoinSplit(s: string, sep: char)
    ensures Join(Split(s, sep), sep) == s
    decreases |s|
  {
    if s != [] {
      var rest := Split(s[1..], sep);
      JoinSplit(s[1..], sep);
      var parts := Split(s, sep);
      if s[0] == sep {
        assert parts[1..] == rest;
      } else if |rest| == 1 {
        assert parts == [[s[0]] + rest[0]];
      } else {
        assert parts[1..] == rest[1..];
        assert Join(rest, sep) == rest[0] + [sep] + Join(rest[1..], sep);
      }
    }
  }

  /** A string free of the separator is a single field. */
  lemma {:induction false} SplitNoSeparator(w: string, sep: char)
    requires sep !in w
    ensures Split(w, sep) == [w]
    decreases |w|
  {
    if w != [] {
      SplitNoSeparator(w[1..], sep);
      assert [w[0]] + w[1..] == w;
    }
  }

  /** A separator-free prefix followed by the separator becomes the first field. */
  lemma {:induction false} SplitAfterField(w: string, t: string, sep: char)
    requires sep !in w
    ensures Split(w + [sep] + t, sep) == [w] + Split(t, sep)
    decreases |w|
  {
    var s := w + [sep] + t;
    if w == [] {
      assert s[1..] == t;
    } else {
      assert s[1..] == w[1..] + [sep] + t;
      SplitAfterField(w[1..], t, sep);
      assert [w[0]] + w[1..] == w;
    }
  }

  /** Joining separator-free fields and splitting again gives back the fields. */
  lemma {:induction false} SplitJoin(parts: seq<string>, sep: char)
    requires |parts| >= 1
    requires forall i :: 0 <= i < |parts| ==> sep !in parts[i]
    ensures Split(Join(parts, sep), sep) == parts
    decreases |parts|
  {
    if |parts| == 1 {
      SplitNoSeparator(parts[0], sep);
    } else {
      SplitJoin(parts[1..], sep);
      SplitAfterField(parts[0], Join(parts[1..], sep), sep);
      assert [parts[0]] + parts[1..] == parts;
    }
  }

  /** The destructured result of `credentials.split(':')`. */
  datatype Credentials = Credentials(email: string, password: Option<string>)

  /** `(authHeader || '').split(' ')[1] || ''`: the token after the scheme. */
  function SchemeToken(header: Option<string>): (token: string)
    ensures ' ' !in token
  {
    var parts := Split(if header.Some? then header.value else "", ' ');
    if |parts| >= 2 then parts[1] else ""
  }

  /**
   * `Buffer.from(token, 'base64').toString('utf-8')`. The library's lenient
   * decoder is the parameter `decode`; the one fact fixed here is that the
   * empty token decodes to the empty string.
   */
  function DecodeToken(token: string, decode: string -> string): string
  {
    if token == "" then "" else decode(token)
  }

  /** The credentials a handler extracts from its Authorization header. */
  function Extract(header: Option<string>, decode: string -> string): (c: Credentials)
    ensures ':' !in c.email
    ensures c.password.Some? ==> ':' !in c.password.value
  {
    var fields := Split(DecodeToken(SchemeToken(header), decode), ':');
    Credentials(fields[0], if |fields| >= 2 then Some(fields[1]) else None)
  }

  /**
   * The email is the decoded token up to its first colon: a colon-free
   * prefix of the decoded text that is either all of it or followed by ':'.
   */
  lemma EmailIsPrefixBeforeColon(header: Option<string>, decode: string -> string)
    ensures var d := DecodeToken(SchemeToken(header), decode);
            var e := Extract(header, decode).email;
            ':' !in e && |e| <= |d| && d[..|e|] == e && (|e| == |d| || d[|e|] == ':')
  {
    var d := DecodeToken(SchemeToken(header), decode);
    var fields := Split(d, ':');
    JoinSplit(d, ':');
    if |fields| > 1 {
      assert d == fields[0] + [':'] + Join(fields[1..], ':');
    }
  }

  /** A missing header, an empty header or a header with no space yields the empty email, not an error. */
  lemma MissingTokenGivesEmptyEmail(header: Option<string>, decode: string -> string)
    requires header.None? || ' ' !in header.value
    ensures SchemeToken(header) == ""
    ensures Extract(header, decode) == Credentials("", None)
  {
    if header.Some? {
      SplitNoSeparator(header.value, ' ');
    }
  }

  /** Whatever leaves the token empty (`"Basic "`, `"Basic  abc"`, …) yields the empty email, not an error. */
  lemma EmptyTokenGivesEmptyEmail(header: Option<string>, decode: string -> string)
    requires SchemeToken(header) == ""
    ensures Extract(header, decode) == Credentials("", None)
  {
  }

  /** A scheme followed by a space and nothing else leaves the token empty. */
  lemma SchemeAloneGivesEmptyToken(scheme: string)
    requires ' ' !in scheme
    ensures SchemeToken(Some(scheme + " ")) == ""
  {
    SplitJoin([scheme, ""], ' ');
    assert Join([scheme, ""], ' ') == scheme + " ";
  }

  /** A well-formed `Basic <token>` header yields exactly its token. */
  lemma SchemeTokenOfBasicHeader(scheme: string, token: string)
    requires ' ' !in scheme && ' ' !in token
    ensures SchemeToken(Some(scheme + " " + token)) == token
  {
    SplitJoin([scheme, token], ' ');
    assert Join([scheme, token], ' ') == scheme + " " + token;
  }

  /** Round trip: a header carrying base64("email:password") yields that email and password. */
  lemma ExtractOfEncodedPair(scheme: string, token: string, email: string, password: string, decode: string -> string)
    requires ' ' !in scheme && ' ' !in token && token != ""
    requires ':' !in email && ':' !in password
    requires decode(token) == email + ":" + password
    ensures Extract(Some(scheme + " " + token), decode) == Credentials(email, Some(password))
  {
    SchemeTokenOfBasicHeader(scheme, token);
    SplitJoin([email, password], ':');
    assert Join([email, password], ':') == email + ":" + password;
  }

  /**
   * Where the code departs from RFC 7617: a password that itself contains a
   * colon is cut at it, and the text after the second colon is dropped.
   */
  lemma PasswordCutAtSecondColon(scheme: string, token: string, email: string, p1: string, p2: string,
                                 decode: string -> string)
    requires ' ' !in scheme && ' ' !in token && token != ""
    requires ':' !in email && ':' !in p1 && ':' !in p2
    requires decode(token) == email + ":" + p1 + ":" + p2
    ensures Extract(Some(scheme + " " + token), decode) == Credentials(email, Some(p1))
  {
    SchemeTokenOfBasicHeader(scheme, token);
    SplitJoin([email, p1, p2], ':');
    assert [email, p1, p2][1..] == [p1, p2];
    assert Join([p1, p2], ':') == p1 + ":" + p2;
    assert Join([email, p1, p2], ':') == email + ":" + p1 + ":" + p2;
  }
}
