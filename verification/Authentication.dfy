/** Splitting the parameters of a digest challenge at the commas outside quotes. */
module Authentication {

  /** Whether a single and a double quote are open. */
  datatype Quotes = Quotes(single: bool, double: bool) {
    predicate Open() {
      single || double
    }

    /** A quote character toggles its own flag, whatever the other one says. */
    function After(c: char): Quotes {
      if c == '\'' then Quotes(!single, double)
      else if c == '\"' then Quotes(single, !double)
      else this
    }
  }

  const NONE := Quotes(false, false)

  function QuotesAfter(s: string): Quotes {
    if s == "" then NONE else QuotesAfter(s[..|s| - 1]).After(s[|s| - 1])
  }

  /** The characters with the Unicode property White_Space. */
  predicate IsWhitespace(c: char) {
    || '\t' <= c <= '\r' || c == ' ' || c == '\U{85}' || c == '\U{A0}' || c == '\U{1680}'
    || '\U{2000}' <= c <= '\U{200A}' || c == '\U{2028}' || c == '\U{2029}' || c == '\U{202F}'
    || c == '\U{205F}' || c == '\U{3000}'
  }

  function TrimStart(s: string): string {
    if s != "" && IsWhitespace(s[0]) then TrimStart(s[1..]) else s
  }

  function TrimEnd(s: string): string {
    if s != "" && IsWhitespace(s[|s| - 1]) then TrimEnd(s[..|s| - 1]) else s
  }

  function Trim(s: string): string {
    TrimEnd(TrimStart(s))
  }

  predicate IsTrimmed(s: string) {
    s == "" || (!IsWhitespace(s[0]) && !IsWhitespace(s[|s| - 1]))
  }

  predicate AllWhitespace(s: string) {
    forall c | c in s :: IsWhitespace(c)
  }

  lemma WhitespaceCodes(c: char)
    ensures IsWhitespace(c) <==> c as int in {9, 10, 11, 12, 13, 32, 133, 160, 5760, 8192, 8193, 8194, 8195, 8196, 8197,
                                              8198, 8199, 8200, 8201, 8202, 8232, 8233, 8239, 8287, 12288}
  {
  }

  lemma {:induction false} TrimStartDrops(s: string) returns (a: string)
    ensures AllWhitespace(a) && s == a + TrimStart(s)
    ensures TrimStart(s) == "" || !IsWhitespace(TrimStart(s)[0])
  {
    a := "";
    if s != "" && IsWhitespace(s[0]) {
      a := TrimStartDrops(s[1..]);
      a := [s[0]] + a;
    }
  }

  lemma {:induction false} TrimEndDrops(s: string) returns (b: string)
    ensures AllWhitespace(b) && s == TrimEnd(s) + b
    ensures TrimEnd(s) == "" || !IsWhitespace(TrimEnd(s)[|TrimEnd(s)| - 1])
  {
    b := "";
    if s != "" && IsWhitespace(s[|s| - 1]) {
      b := TrimEndDrops(s[..|s| - 1]);
      b := b + [s[|s| - 1]];
    }
  }

  /** The whitespace in front of and behind a text, and nothing else. */
  ghost predicate Surrounds(s: string, t: string) {
    IsTrimmed(t) && exists a, b :: AllWhitespace(a) && AllWhitespace(b) && s == a + t + b
  }

  lemma {:induction false} TrimStartDropsAll(a: string, t: string)
    requires AllWhitespace(a) && (t != "" ==> !IsWhitespace(t[0]))
    ensures TrimStart(a + t) == t
  {
    if a == "" {
      assert a + t == t;
    } else {
      assert (a + t)[1..] == a[1..] + t;
      TrimStartDropsAll(a[1..], t);
    }
  }

  lemma {:induction false} TrimEndDropsAll(t: string, b: string)
    requires AllWhitespace(b) && (t != "" ==> !IsWhitespace(t[|t| - 1]))
    ensures TrimEnd(t + b) == t
  {
    if b == "" {
      assert t + b == t;
    } else {
      assert (t + b)[..|t + b| - 1] == t + b[..|b| - 1];
      TrimEndDropsAll(t, b[..|b| - 1]);
    }
  }

  /** Trimming takes off all whitespace at both ends and nothing else. */
  lemma TrimExactly(s: string, t: string)
    ensures t == Trim(s) <==> Surrounds(s, t)
  {
    var a := TrimStartDrops(s);
    var b := TrimEndDrops(TrimStart(s));
    assert s == a + Trim(s) + b;
    assert Surrounds(s, Trim(s)) by {
      if Trim(s) != "" {
        assert Trim(s)[0] == TrimStart(s)[0];
      }
    }
    if Surrounds(s, t) {
      var a', b' :| AllWhitespace(a') && AllWhitespace(b') && s == a' + t + b';
      if t == "" {
        assert s == (a' + b') + "" && AllWhitespace(a' + b');
        TrimStartDropsAll(a' + b', "");
      } else {
        assert s == a' + (t + b');
        TrimStartDropsAll(a', t + b');
        TrimEndDropsAll(t, b');
      }
    }
  }

  /** Drops all leading commas. */
  function TrimCommas(s: string): string {
    if s != "" && s[0] == ',' then TrimCommas(s[1..]) else s
  }

  // ---- What splitting means ----

  /** The pieces between the commas outside quotes, given the piece read so far. */
  function PiecesFrom(q: Quotes, piece: string, rest: string): seq<string>
    decreases |rest|
  {
    if rest == "" then [piece]
    else if rest[0] == ',' && !q.Open() then [piece] + PiecesFrom(NONE, "", rest[1..])
    else PiecesFrom(q.After(rest[0]), piece + [rest[0]], rest[1..])
  }

  function Pieces(s: string): seq<string> {
    PiecesFrom(NONE, "", s)
  }

  function Join(parts: seq<string>): string
    requires parts != []
  {
    if |parts| == 1 then parts[0] else parts[0] + "," + Join(parts[1..])
  }

  /** The trimmed pieces. An empty challenge has none. */
  function Split(header: string): seq<string> {
    if header == "" then [] else TrimAll(Pieces(header))
  }

  function TrimAll(parts: seq<string>): (r: seq<string>)
    ensures |r| == |parts|
    ensures forall i | 0 <= i < |parts| :: r[i] == Trim(parts[i])
  {
    if parts == [] then [] else [Trim(parts[0])] + TrimAll(parts[1..])
  }

  // ---- The loop ----

  /** One turn of the loop on the definition of the pieces. */
  lemma PiecesStep(q: Quotes, piece: string, rest: string)
    requires rest != ""
    ensures PiecesFrom(q, piece, rest) ==
            if rest[0] == ',' && !q.Open() then [piece] + PiecesFrom(NONE, "", rest[1..])
            else PiecesFrom(q.After(rest[0]), piece + [rest[0]], rest[1..])
  {
  }

  /** Splits a challenge into its parameters. */
  method SplitHeader(header: string) returns (parts: seq<string>)
    ensures parts == Split(header)
    ensures if header == "" then parts == [] else AreParts(header, parts)
  {
    hide TrimAll, PiecesFrom, Trim, TrimCommas, AreParts;
    parts := [];
    var q := NONE;
    var lastSplit := 0;
    var i := 0;
    ghost var done: seq<string> := [];
    ghost var piece := "";
    TrimAllNone();
    assert header[0..] == header;
    while i < |header|
      invariant 0 <= lastSplit <= i <= |header|
      invariant parts == if i == |header| && i > 0 then TrimAll(done + [piece]) else TrimAll(done)
      invariant Pieces(header) == done + PiecesFrom(q, piece, header[i..])
      invariant IsSlice(header[lastSplit..i], piece)
      invariant piece == "" ==> q == NONE
    {
      var c := header[i];
      PiecesStep(q, piece, header[i..]);
      assert header[i..][1..] == header[i + 1..];
      assert header[lastSplit..i + 1] == header[lastSplit..i] + [c];
      if c == '\'' {
        q := q.(single := !q.single);
        piece := piece + [c];
      } else if c == '\"' {
        q := q.(double := !q.double);
        piece := piece + [c];
      } else if c == ',' && !q.single && !q.double {
        WithoutSeparator(piece, header[lastSplit..i]);
        parts := parts + [Trim(TrimCommas(header[lastSplit..i]))];
        TrimAllSnoc(done, piece);
        done := done + [piece];
        lastSplit := i;
        piece := "";
        assert q == NONE && header[lastSplit..i + 1] == ",";
      } else {
        piece := piece + [c];
      }
      if i + 1 == |header| {
        assert header[lastSplit..] == header[lastSplit..i + 1];
        WithoutSeparator(piece, header[lastSplit..]);
        TrimAllSnoc(done, piece);
        parts := parts + [Trim(TrimCommas(header[lastSplit..]))];
      }
      i := i + 1;
    }
    assert header[i..] == "";
    PiecesEnd(q, piece);
    SplitExactly(header, parts);
  }

  lemma PiecesEnd(q: Quotes, piece: string)
    ensures PiecesFrom(q, piece, "") == [piece]
  {
  }

  lemma TrimAllNone()
    ensures TrimAll([]) == []
  {
  }

  /** The characters since the last split: the piece, with the separator in front of it unless
      it is the first one. A piece never starts with a comma. */
  predicate IsSlice(slice: string, piece: string) {
    (slice == piece || slice == "," + piece) && (piece != "" ==> piece[0] != ',')
  }

  /** Dropping leading commas drops exactly the separator. */
  lemma WithoutSeparator(piece: string, slice: string)
    requires IsSlice(slice, piece)
    ensures TrimCommas(slice) == piece
  {
    if slice == "," + piece {
      assert slice[1..] == piece;
    }
  }

  lemma {:induction false} TrimAllSnoc(parts: seq<string>, last: string)
    ensures TrimAll(parts + [last]) == TrimAll(parts) + [Trim(last)]
  {
  }

  // ---- Splitting inverts joining ----

  function Count(s: string, c: char): nat {
    multiset(s)[c]
  }

  /** A quote is open exactly if its character occurred an odd number of times. */
  lemma {:induction false} QuotesByCount(s: string)
    ensures QuotesAfter(s) == Quotes(Count(s, '\'') % 2 == 1, Count(s, '\"') % 2 == 1)
  {
    if s != "" {
      assert s == s[..|s| - 1] + [s[|s| - 1]];
      QuotesByCount(s[..|s| - 1]);
    }
  }

  /** One of the quote characters occurs an odd number of times before every comma. */
  ghost predicate CommasQuoted(f: string) {
    forall i | 0 <= i < |f| && f[i] == ',' :: Count(f[..i], '\'') % 2 == 1 || Count(f[..i], '\"') % 2 == 1
  }

  /** In addition, both of them occur an even number of times in all. */
  ghost predicate IsField(f: string) {
    Count(f, '\'') % 2 == 0 && Count(f, '\"') % 2 == 0 && CommasQuoted(f)
  }

  /** Quotes may be left open at the end only. */
  ghost predicate ArePieces(parts: seq<string>) {
    parts != [] && CommasQuoted(parts[|parts| - 1]) && forall i | 0 <= i < |parts| - 1 :: IsField(parts[i])
  }

  lemma FieldCloses(f: string)
    requires IsField(f)
    ensures !QuotesAfter(f).Open()
  {
    QuotesByCount(f);
  }

  lemma QuotedHere(piece: string, f: string)
    requires f != "" && CommasQuoted(piece + f)
    ensures f[0] == ',' ==> QuotesAfter(piece).Open()
    ensures QuotesAfter(piece + [f[0]]) == QuotesAfter(piece).After(f[0])
  {
    assert (piece + f)[..|piece|] == piece && (piece + f)[|piece|] == f[0];
    assert (piece + [f[0]])[..|piece|] == piece;
    QuotesByCount(piece);
  }

  lemma {:induction false} FieldThen(piece: string, f: string, rest: string)
    requires CommasQuoted(piece + f) && (rest != "" ==> IsField(piece + f) && rest[0] == ',')
    ensures PiecesFrom(QuotesAfter(piece), piece, f + rest) ==
            [piece + f] + (if rest == "" then [] else PiecesFrom(NONE, "", rest[1..]))
    decreases |f|
  {
    hide CommasQuoted, IsField, PiecesFrom, QuotesAfter;
    if f == "" {
      assert piece + f == piece && f + rest == rest;
      if rest == "" {
        PiecesEnd(QuotesAfter(piece), piece);
      } else {
        FieldCloses(piece);
        PiecesStep(QuotesAfter(piece), piece, rest);
      }
    } else {
      var c := f[0];
      QuotedHere(piece, f);
      PiecesStep(QuotesAfter(piece), piece, f + rest);
      assert (f + rest)[1..] == f[1..] + rest;
      assert (piece + [c]) + f[1..] == piece + f;
      FieldThen(piece + [c], f[1..], rest);
    }
  }

  lemma {:induction false} PiecesOfJoin(fields: seq<string>)
    requires ArePieces(fields)
    ensures Pieces(Join(fields)) == fields
  {
    hide PiecesFrom, CommasQuoted;
    var f := fields[0];
    assert "" + f == f;
    if |fields| == 1 {
      FieldThen("", f, "");
      assert f + "" == f;
    } else {
      var rest := "," + Join(fields[1..]);
      FieldThen("", f, rest);
      assert rest[1..] == Join(fields[1..]);
      assert Join(fields) == f + rest;
      PiecesOfJoin(fields[1..]);
    }
  }

  /** Joining the pieces gives back the text, whatever it is. */
  lemma {:induction false} JoinOfPiecesFrom(q: Quotes, piece: string, rest: string)
    ensures PiecesFrom(q, piece, rest) != [] && Join(PiecesFrom(q, piece, rest)) == piece + rest
    decreases |rest|
  {
    hide PiecesFrom, Join;
    if rest == "" {
      PiecesEnd(q, piece);
      JoinOne(piece);
      assert piece + rest == piece;
    } else {
      PiecesStep(q, piece, rest);
      if rest[0] == ',' && !q.Open() {
        var tail := PiecesFrom(NONE, "", rest[1..]);
        JoinOfPiecesFrom(NONE, "", rest[1..]);
        JoinCons(piece, tail);
        assert piece + "," + ("" + rest[1..]) == piece + rest;
      } else {
        JoinOfPiecesFrom(q.After(rest[0]), piece + [rest[0]], rest[1..]);
        assert (piece + [rest[0]]) + rest[1..] == piece + rest;
      }
    }
  }

  lemma JoinOne(piece: string)
    ensures Join([piece]) == piece
  {
  }

  lemma JoinCons(head: string, tail: seq<string>)
    requires tail != []
    ensures Join([head] + tail) == head + "," + Join(tail)
  {
    assert ([head] + tail)[1..] == tail;
  }

  lemma JoinOfPieces(s: string)
    ensures Pieces(s) != [] && Join(Pieces(s)) == s
  {
    JoinOfPiecesFrom(NONE, "", s);
    assert "" + s == s;
  }

  lemma {:induction false} PiecesAreEnclosed(piece: string, rest: string)
    requires CommasQuoted(piece)
    ensures ArePieces(PiecesFrom(QuotesAfter(piece), piece, rest))
    decreases |rest|
  {
    hide PiecesFrom, QuotesAfter;
    var q := QuotesAfter(piece);
    QuotesByCount(piece);
    if rest == "" {
      PiecesEnd(q, piece);
    } else {
      var c := rest[0];
      PiecesStep(q, piece, rest);
      if c == ',' && !q.Open() {
        QuotesByCount("");
        PiecesAreEnclosed("", rest[1..]);
      } else {
        NextQuoted(piece, c);
        PiecesAreEnclosed(piece + [c], rest[1..]);
      }
    }
  }

  lemma NextQuoted(piece: string, c: char)
    requires CommasQuoted(piece) && (c == ',' ==> QuotesAfter(piece).Open())
    ensures CommasQuoted(piece + [c]) && QuotesAfter(piece + [c]) == QuotesAfter(piece).After(c)
  {
    QuotesByCount(piece);
    assert (piece + [c])[..|piece|] == piece;
    forall i | 0 <= i < |piece| ensures (piece + [c])[..i] == piece[..i] {
    }
  }

  /** The pieces are the one way to write a text with commas between pieces that hide none. */
  lemma PiecesExactly(s: string, parts: seq<string>)
    ensures parts == Pieces(s) <==> ArePieces(parts) && Join(parts) == s
  {
    JoinOfPieces(s);
    PiecesAreEnclosed("", s);
    if ArePieces(parts) && Join(parts) == s {
      PiecesOfJoin(parts);
    }
  }

  /** What is left of each piece of a challenge between the whitespace around it. */
  ghost predicate AreParts(header: string, parts: seq<string>) {
    exists pieces :: ArePieces(pieces) && Join(pieces) == header
                     && |parts| == |pieces| && forall i | 0 <= i < |parts| :: Surrounds(pieces[i], parts[i])
  }

  /** The parameters of a challenge are the pieces without the whitespace around them. */
  lemma SplitExactly(header: string, parts: seq<string>)
    ensures parts == Split(header) <==> if header == "" then parts == [] else AreParts(header, parts)
  {
    hide PiecesFrom, Join, Trim, Surrounds, CommasQuoted;
    if header != "" {
      var pieces := Pieces(header);
      PiecesExactly(header, pieces);
      forall i, t | 0 <= i < |pieces| ensures t == TrimAll(pieces)[i] <==> Surrounds(pieces[i], t) {
        TrimExactly(pieces[i], t);
      }
      if AreParts(header, parts) {
        var other :| ArePieces(other) && Join(other) == header
                     && |parts| == |other| && forall i | 0 <= i < |parts| :: Surrounds(other[i], parts[i]);
        PiecesExactly(header, other);
        assert forall i | 0 <= i < |parts| :: parts[i] == TrimAll(pieces)[i];
      }
      if parts == Split(header) {
        assert forall i | 0 <= i < |parts| :: Surrounds(pieces[i], parts[i]);
      }
    }
  }

  lemma TrimmedStays(fields: seq<string>)
    requires forall f | f in fields :: IsTrimmed(f)
    ensures TrimAll(fields) == fields
  {
    forall i | 0 <= i < |fields| ensures TrimAll(fields)[i] == fields[i] {
      assert IsTrimmed(fields[i]);
    }
  }

  /** Trimmed fields, joined by commas, are recovered exactly and in order, unless they are
      the one empty field, whose join cannot be told from no field at all. */
  lemma SplitInvertsJoin(fields: seq<string>)
    requires fields != [] && forall f | f in fields :: IsField(f) && IsTrimmed(f)
    ensures Split(Join(fields)) == fields <==> fields != [""]
  {
    hide Pieces, TrimAll, CommasQuoted, IsTrimmed;
    assert IsField(fields[|fields| - 1]);
    PiecesOfJoin(fields);
    TrimmedStays(fields);
    if Join(fields) == "" {
      assert |fields| == 1;
    }
  }
}
