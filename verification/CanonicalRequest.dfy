/** The canonical request that `sign_post` hashes and signs: its header list, and what it binds. */
module CanonicalRequest {
  import opened Wrappers
  import opened Splitting
  import opened SigV4

  datatype Signed = Signed(
    path: string, contentType: string, host: string, amzDate: string, token: Option<string>, payloadHash: string)

  const BASE_NAMES := "content-type;host;x-amz-date"

  function SignedHeaders(r: Signed): string {
    if r.token.Some? then BASE_NAMES + ";x-amz-security-token" else BASE_NAMES
  }

  /** The lines before the session token: request line, empty query, then the headers. */
  function HeadLines(r: Signed): seq<string> {
    ["POST", r.path, "", "content-type:" + r.contentType, "host:" + r.host, "x-amz-date:" + r.amzDate]
  }

  function TailText(r: Signed): string {
    if r.token.Some? then
      Terminated(["x-amz-security-token:" + r.token.value, "", SignedHeaders(r)], '\n', r.payloadHash)
    else Terminated(["", SignedHeaders(r)], '\n', r.payloadHash)
  }

  /** One line per item, in protocol order. */
  function Canonical(r: Signed): string {
    Terminated(HeadLines(r), '\n', TailText(r))
  }

  function BaseHeaders(r: Signed): string {
    "content-type:" + r.contentType + "\nhost:" + r.host + "\nx-amz-date:" + r.amzDate + "\n"
  }

  function TokenHeader(r: Signed): string {
    if r.token.Some? then "x-amz-security-token:" + r.token.value + "\n" else ""
  }

  method BuildCanonicalRequest(r: Signed) returns (canonical: string, signedHeaders: string)
    ensures canonical == Canonical(r) && signedHeaders == SignedHeaders(r)
  {
    hide Canonical;
    var canonicalHeaders := "content-type:" + r.contentType + "\nhost:" + r.host + "\nx-amz-date:" + r.amzDate + "\n";
    signedHeaders := "content-type;host;x-amz-date";
    if r.token.Some? {
      canonicalHeaders := canonicalHeaders + ("x-amz-security-token:" + r.token.value + "\n");
      signedHeaders := signedHeaders + ";x-amz-security-token";
    } else {
      assert canonicalHeaders + "" == canonicalHeaders;
    }
    canonical := "POST\n" + r.path + "\n\n" + canonicalHeaders + "\n" + signedHeaders + "\n" + r.payloadHash;
    assert canonicalHeaders == BaseHeaders(r) + TokenHeader(r);
    Written(r);
  }

  lemma Regroup(head: string, base: string, token: string, x: string, names: string, y: string, hash: string)
    ensures head + (base + token) + x + names + y + hash == (head + base) + (token + x + names + y + hash)
  {
  }

  lemma Written(r: Signed)
    ensures "POST\n" + r.path + "\n\n" + (BaseHeaders(r) + TokenHeader(r)) + "\n" + SignedHeaders(r)
            + "\n" + r.payloadHash == Canonical(r)
  {
    hide Terminated, SignedHeaders, BaseHeaders, TokenHeader, TailText;
    TailWritten(r);
    HeadWritten(r, TailText(r));
    Regroup("POST\n" + r.path + "\n\n", BaseHeaders(r), TokenHeader(r), "\n", SignedHeaders(r), "\n", r.payloadHash);
  }

  lemma Unfold(ls: seq<string>, i: nat, tail: string)
    requires i < |ls|
    ensures Terminated(ls[i..], '\n', tail) == ls[i] + "\n" + Terminated(ls[i + 1..], '\n', tail)
  {
    assert ls[i..][1..] == ls[i + 1..];
  }

  lemma TwoLines(a: string, b: string, tail: string)
    ensures Terminated([a, b], '\n', tail) == a + "\n" + (b + "\n" + tail)
  {
    assert [a, b][1..] == [b] && [b][1..] == [];
    assert Terminated([b], '\n', tail) == b + "\n" + tail;
  }

  lemma TailWritten(r: Signed)
    ensures TailText(r) == TokenHeader(r) + "\n" + SignedHeaders(r) + "\n" + r.payloadHash
  {
    hide Terminated, SignedHeaders;
    var n, h := SignedHeaders(r), r.payloadHash;
    TwoLines("", n, h);
    if r.token.Some? {
      var ls := ["x-amz-security-token:" + r.token.value, "", n];
      assert ls[0..] == ls && ls[1..] == ["", n];
      Unfold(ls, 0, h);
    }
  }

  lemma HeadWritten(r: Signed, tail: string)
    ensures Terminated(HeadLines(r), '\n', tail) ==
            ("POST\n" + r.path + "\n\n" + BaseHeaders(r)) + tail
  {
    hide Terminated, BaseHeaders;
    var ls := HeadLines(r);
    var third := Terminated(ls[3..], '\n', tail);
    assert ls[0..] == ls;
    Unfold(ls, 0, tail);
    Unfold(ls, 1, tail);
    Unfold(ls, 2, tail);
    HeadersWritten(r, tail);
    assert Terminated(ls, '\n', tail) == "POST\n" + r.path + "\n\n" + third;
  }

  lemma HeadersWritten(r: Signed, tail: string)
    ensures Terminated(HeadLines(r)[3..], '\n', tail) == BaseHeaders(r) + tail
  {
    hide Terminated;
    var ls := HeadLines(r);
    Unfold(ls, 3, tail);
    assert ls[4..] == [ls[4], ls[5]];
    TwoLines(ls[4], ls[5], tail);
  }

  /** The header lines of the canonical request, and the list of signed names, item by item. */
  function HeaderLines(r: Signed): seq<string> {
    HeadLines(r)[3..] + if r.token.Some? then ["x-amz-security-token:" + r.token.value] else []
  }

  function Names(r: Signed): seq<string> {
    ["content-type", "host", "x-amz-date"] + if r.token.Some? then ["x-amz-security-token"] else []
  }

  /** The name a header line is for: everything before its first colon. */
  function NameOf(line: string): string {
    line[..FindFirst(line, ':')]
  }

  lemma NameOfLine(line: string, name: string, value: string)
    requires ':' !in name && line == name + [':'] + value
    ensures NameOf(line) == name
  {
    hide FindFirst;
    FirstIsSeparator(name, ':', value);
    assert line[..|name|] == name;
  }

  lemma ThreeParts(a: string, b: string, c: string, x: char, tail: string)
    ensures Terminated([a, b, c], x, tail) == a + [x] + (b + [x] + (c + [x] + tail))
  {
    assert [a, b, c][1..] == [b, c] && [b, c][1..] == [c] && [c][1..] == [];
    assert Terminated([c], x, tail) == c + [x] + tail;
    assert Terminated([b, c], x, tail) == b + [x] + Terminated([c], x, tail);
  }

  lemma TwoParts(a: string, b: string, x: char, tail: string)
    ensures Terminated([a, b], x, tail) == a + [x] + (b + [x] + tail)
  {
    assert [a, b][1..] == [b] && [b][1..] == [];
    assert Terminated([b], x, tail) == b + [x] + tail;
  }

  lemma TokenWritten(r: Signed)
    ensures Terminated(HeaderLines(r)[3..], '\n', "") == TokenHeader(r)
  {
    assert HeadLines(r)[3..] == [HeadLines(r)[3], HeadLines(r)[4], HeadLines(r)[5]];
    var token := HeaderLines(r)[3..];
    if r.token.Some? {
      assert token == ["x-amz-security-token:" + r.token.value] && token[1..] == [];
    } else {
      assert token == [];
    }
  }

  lemma TerminatedConcat(a: seq<string>, b: seq<string>, x: char, tail: string)
    ensures Terminated(a + b, x, tail) == Terminated(a, x, Terminated(b, x, tail))
  {
    if a == [] {
      assert a + b == b;
    } else {
      assert (a + b)[1..] == a[1..] + b;
      TerminatedConcat(a[1..], b, x, tail);
    }
  }

  lemma LinesWritten(r: Signed)
    ensures Terminated(HeaderLines(r), '\n', "") == BaseHeaders(r) + TokenHeader(r)
  {
    hide Terminated, BaseHeaders, TokenHeader;
    var ls := HeaderLines(r);
    HeadersWritten(r, TokenHeader(r));
    TokenWritten(r);
    assert ls[..3] == HeadLines(r)[3..] && ls == ls[..3] + ls[3..];
    TerminatedConcat(ls[..3], ls[3..], '\n', "");
  }

  lemma Rejoined(a: string, b: string, c: string, d: string)
    ensures a + [';'] + (b + [';'] + c) == a + ";" + b + ";" + c
    ensures a + [';'] + (b + [';'] + (c + [';'] + d)) == a + ";" + b + ";" + c + (";" + d)
  {
  }

  lemma BaseNames()
    ensures "content-type" + ";" + "host" + ";" + "x-amz-date" == BASE_NAMES
    ensures ";" + "x-amz-security-token" == ";x-amz-security-token"
  {
  }

  lemma NamesWritten(r: Signed)
    ensures var ns := Names(r); Terminated(ns[..|ns| - 1], ';', ns[|ns| - 1]) == SignedHeaders(r)
  {
    hide Terminated;
    var ns := Names(r);
    var a, b, c, d := ns[0], ns[1], ns[2], "x-amz-security-token";
    BaseNames();
    Rejoined(a, b, c, d);
    if r.token.Some? {
      assert ns[..3] == [a, b, c];
      ThreeParts(a, b, c, ';', d);
    } else {
      assert ns[..2] == [a, b];
      TwoParts(a, b, ';', c);
    }
  }

  lemma LinesNamed(r: Signed)
    ensures |HeaderLines(r)| == |Names(r)|
    ensures forall i | 0 <= i < |Names(r)| :: NameOf(HeaderLines(r)[i]) == Names(r)[i]
  {
    hide NameOf;
    var ls := HeaderLines(r);
    assert HeadLines(r)[3..] == [HeadLines(r)[3], HeadLines(r)[4], HeadLines(r)[5]];
    NameOfLine(ls[0], "content-type", r.contentType);
    NameOfLine(ls[1], "host", r.host);
    NameOfLine(ls[2], "x-amz-date", r.amzDate);
    if r.token.Some? {
      NameOfLine(ls[3], "x-amz-security-token", r.token.value);
    }
  }

  lemma FirstLetters(a: string, b: string)
    requires a != "" && b != "" && a[0] < b[0]
    ensures LexLess(a, b)
  {
  }

  lemma LastNames()
    ensures LexLess("x-amz-date", "x-amz-security-token")
  {
    FirstLetters("date", "security-token");
    hide LexLess;
    LexConcat("x-amz-", "x-amz-", "date", "security-token");
    assert "x-amz-" + "date" == "x-amz-date" && "x-amz-" + "security-token" == "x-amz-security-token";
  }

  lemma NamesIncrease(r: Signed)
    ensures var ns := Names(r); forall i, j | 0 <= i < j < |ns| :: LexLess(ns[i], ns[j])
  {
    hide LexLess;
    FirstLetters("content-type", "host");
    FirstLetters("content-type", "x-amz-date");
    FirstLetters("content-type", "x-amz-security-token");
    FirstLetters("host", "x-amz-date");
    FirstLetters("host", "x-amz-security-token");
    LastNames();
  }

  /** The signed header list names the header lines that were written, one by one, and the names
      are strictly increasing, as the protocol demands. */
  lemma HeaderNamesSorted(r: Signed)
    ensures var ns, ls := Names(r), HeaderLines(r);
            && SignedHeaders(r) == Terminated(ns[..|ns| - 1], ';', ns[|ns| - 1])
            && BaseHeaders(r) + TokenHeader(r) == Terminated(ls, '\n', "")
            && |ls| == |ns| && (forall i | 0 <= i < |ns| :: NameOf(ls[i]) == ns[i])
            && forall i, j | 0 <= i < j < |ns| :: LexLess(ns[i], ns[j])
  {
    assert |Names(r)| > 0;
    hide *;
    NamesWritten(r);
    LinesWritten(r);
    LinesNamed(r);
    NamesIncrease(r);
  }

  /** No field carries a line break. */
  predicate Clean(r: Signed) {
    && '\n' !in r.path && '\n' !in r.contentType && '\n' !in r.host && '\n' !in r.amzDate
    && (r.token.Some? ==> '\n' !in r.token.value)
  }

  /** The canonical request binds every field: requests that differ in the path, a header, the
      presence or value of the session token, or the payload hash are canonicalised apart. */
  lemma CanonicalIsInjective(r: Signed, q: Signed)
    requires Clean(r) && Clean(q)
    ensures Canonical(r) == Canonical(q) <==> r == q
  {
    if Canonical(r) == Canonical(q) {
      HeadAvoids(r);
      HeadAvoids(q);
      TerminatedInjective(HeadLines(r), HeadLines(q), '\n', TailText(r), TailText(q));
      HeadBinds(r, q);
      TailBinds(r, q);
    }
  }

  lemma HeadAvoids(r: Signed)
    requires Clean(r)
    ensures Avoid(HeadLines(r), '\n')
  {
  }

  lemma HeadBinds(r: Signed, q: Signed)
    requires HeadLines(r) == HeadLines(q)
    ensures r.path == q.path && r.contentType == q.contentType && r.host == q.host && r.amzDate == q.amzDate
  {
    var a, b := HeadLines(r), HeadLines(q);
    assert a[1] == b[1] && a[3] == b[3] && a[4] == b[4] && a[5] == b[5];
    assert r.contentType == a[3][|"content-type:"|..] && q.contentType == b[3][|"content-type:"|..];
    assert r.host == a[4][|"host:"|..] && q.host == b[4][|"host:"|..];
    assert r.amzDate == a[5][|"x-amz-date:"|..] && q.amzDate == b[5][|"x-amz-date:"|..];
  }

  lemma TailStarts(r: Signed)
    ensures TailText(r) != "" && TailText(r)[0] == if r.token.Some? then 'x' else '\n'
  {
    hide Terminated;
    TailWritten(r);
  }

  lemma TailBinds(r: Signed, q: Signed)
    requires Clean(r) && Clean(q) && TailText(r) == TailText(q)
    ensures r.token == q.token && r.payloadHash == q.payloadHash
  {
    hide Terminated;
    TailStarts(r);
    TailStarts(q);
    NamesAvoid();
    if r.token.Some? {
      var t, u := "x-amz-security-token:" + r.token.value, "x-amz-security-token:" + q.token.value;
      var a, b := [t, "", SignedHeaders(r)], [u, "", SignedHeaders(q)];
      TerminatedInjective(a, b, '\n', r.payloadHash, q.payloadHash);
      assert a[0] == b[0];
      assert r.token.value == t[|"x-amz-security-token:"|..] && q.token.value == u[|"x-amz-security-token:"|..];
    } else {
      TerminatedInjective(["", SignedHeaders(r)], ["", SignedHeaders(q)], '\n', r.payloadHash, q.payloadHash);
    }
  }

  lemma NamesAvoid()
    ensures '\n' !in BASE_NAMES && '\n' !in BASE_NAMES + ";x-amz-security-token" && '\n' !in "x-amz-security-token:"
  {
  }
}
