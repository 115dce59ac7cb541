/**
 * Emote rendering: message text is HTML-escaped as a whole and only then searched for
 * :name: tokens, whose names are looked up in a table that directory scans maintain.
 */
module Emotes {
  import opened Prelude

  // ---------------------------------------------------------------------------
  // Escaping
  // ---------------------------------------------------------------------------

  const NUL: char := '\0'
  const REPLACEMENT: char := '\U{FFFD}'

  /** template.HTMLEscapeString, one character at a time. */
  function EscapeChar(c: char): string
  {
    if c == '"' then "&#34;"
    else if c == '\'' then "&#39;"
    else if c == '&' then "&amp;"
    else if c == '<' then "&lt;"
    else if c == '>' then "&gt;"
    else if c == NUL then [REPLACEMENT]
    else [c]
  }

  function Escape(s: string): string
  {
    if s == "" then "" else EscapeChar(s[0]) + Escape(s[1..])
  }

  /** The character a reference at the start of the text stands for, and its length. */
  function Decode(s: string): (result: (char, nat))
    requires s != ""
    ensures 0 < result.1 <= |s|
  {
    if s[0] != '&' || |s| < 4 then (s[0], 1)
    else if s[1] == 'l' && s[2] == 't' && s[3] == ';' then ('<', 4)
    else if s[1] == 'g' && s[2] == 't' && s[3] == ';' then ('>', 4)
    else if |s| < 5 || s[4] != ';' then (s[0], 1)
    else if s[1] == '#' && s[2] == '3' && s[3] == '4' then ('"', 5)
    else if s[1] == '#' && s[2] == '3' && s[3] == '9' then ('\'', 5)
    else if s[1] == 'a' && s[2] == 'm' && s[3] == 'p' then ('&', 5)
    else (s[0], 1)
  }

  /** An HTML reader's view of escaped text: the five references back to characters. */
  function Unescape(s: string): string
  {
    if s == "" then "" else var (c, n) := Decode(s); [c] + Unescape(s[n..])
  }

  function WithoutNul(s: string): string
  {
    if s == "" then "" else [if s[0] == NUL then REPLACEMENT else s[0]] + WithoutNul(s[1..])
  }

  // ---------------------------------------------------------------------------
  // Tokens
  // ---------------------------------------------------------------------------

  predicate NameChar(c: char) {
    'a' <= c <= 'z' || 'A' <= c <= 'Z' || '0' <= c <= '9' || c == '_' || c == '-'
  }

  /** The length of the longest run of name characters at the start. */
  function NameRun(s: string): (n: nat)
    ensures n <= |s|
  {
    if s != "" && NameChar(s[0]) then 1 + NameRun(s[1..]) else 0
  }

  /** The length of the :name: token at the start of the text, or 0. */
  function TokenAt(s: string): (n: nat)
    ensures n <= |s|
    ensures n > 0 ==> n > 2
  {
    if s == "" || s[0] != ':' then 0
    else
      var n := NameRun(s[1..]);
      if 0 < n && n + 1 < |s| && s[n + 1] == ':' then n + 2 else 0
  }

  type Table = map<string, string>

  function Substitute(token: string, table: Table): string
    requires |token| > 2
  {
    var name := token[1..|token| - 1];
    if name in table then table[name] else token
  }

  /** ReplaceAllStringFunc: leftmost, non-overlapping tokens replaced, the rest kept. */
  function ReplaceTokens(s: string, table: Table): string
  {
    if s == "" then ""
    else
      var n := TokenAt(s);
      if n > 0 then Substitute(s[..n], table) + ReplaceTokens(s[n..], table)
      else [s[0]] + ReplaceTokens(s[1..], table)
  }

  /** ReplaceEmotes as the server computes it: escape first, match second. */
  function ReplaceEmotes(text: string, table: Table): string
  {
    ReplaceTokens(Escape(text), table)
  }

  // ---------------------------------------------------------------------------
  // The reference: match in the raw text, escape only the gaps
  // ---------------------------------------------------------------------------

  datatype Piece = Gap(c: char) | Token(name: string)

  function Pieces(text: string): seq<Piece>
  {
    if text == "" then []
    else
      var n := TokenAt(text);
      if n > 0 then [Token(text[1..n - 1])] + Pieces(text[n..])
      else [Gap(text[0])] + Pieces(text[1..])
  }

  function RenderPiece(piece: Piece, table: Table): string
  {
    match piece
    case Gap(c) => EscapeChar(c)
    case Token(name) => if name in table then table[name] else ":" + name + ":"
  }

  function Render(pieces: seq<Piece>, table: Table): string
  {
    if pieces == [] then "" else RenderPiece(pieces[0], table) + Render(pieces[1..], table)
  }

  /** The names of the tokens, in order. */
  function TokenNames(pieces: seq<Piece>): seq<string>
  {
    if pieces == [] then []
    else (if pieces[0].Token? then [pieces[0].name] else []) + TokenNames(pieces[1..])
  }

  // Which tokens they are ------------------------------------------------------------

  /** The characters of an emote name, written out. */
  const LOWER: string := "abcdefghijklmnopqrstuvwxyz"
  const UPPER: string := "ABCDEFGHIJKLMNOPQRSTUVWXYZ"
  const NUMERALS: string := "0123456789"

  predicate Listed(c: char)
  {
    c in LOWER || c in UPPER || c in NUMERALS || c == '_' || c == '-'
  }

  lemma NameCharsAre(c: char)
    ensures NameChar(c) <==> Listed(c)
  {
  }

  /** A colon, one or more of these characters, and a colon make up the first n characters. */
  predicate IsToken(s: string, n: nat)
  {
    3 <= n <= |s| && s[0] == ':' && s[n - 1] == ':' && forall k | 0 < k < n - 1 :: Listed(s[k])
  }

  lemma {:induction false} NameRunEnds(s: string, n: nat)
    requires n <= |s| && (forall k | 0 <= k < n :: NameChar(s[k])) && (n < |s| ==> !NameChar(s[n]))
    ensures NameRun(s) == n
  {
    if n > 0 {
      NameRunEnds(s[1..], n - 1);
    }
  }

  /** Exactly which tokens stand at the head of a text. */
  lemma TokenExactly(s: string, n: nat)
    ensures n > 0 ==> (TokenAt(s) == n <==> IsToken(s, n))
    ensures TokenAt(s) == 0 <==> forall m :: !IsToken(s, m)
  {
    forall m: nat
      ensures m > 0 ==> (TokenAt(s) == m <==> IsToken(s, m))
    {
      TokenHere(s, m);
    }
    assert TokenAt(s) > 0 ==> IsToken(s, TokenAt(s));
  }

  lemma TokenHere(s: string, n: nat)
    ensures n > 0 ==> (TokenAt(s) == n <==> IsToken(s, n))
  {
    forall k | 0 <= k < |s|
      ensures NameChar(s[k]) <==> Listed(s[k])
    {
      NameCharsAre(s[k]);
    }
    assert !NameChar(':');
    hide NameChar, Listed;
    if IsToken(s, n) {
      NameRunEnds(s[1..], n - 2);
    } else if n > 0 && TokenAt(s) == n {
      forall k | 0 < k < n - 1
        ensures NameChar(s[k])
      {
        AllNameChars(s[1..], k - 1);
      }
    }
  }

  /** The name has a character, and only those of emote names. */
  predicate GoodName(name: string)
  {
    name != "" && forall c <- name :: Listed(c)
  }

  lemma TokenParts(s: string, n: nat)
    requires IsToken(s, n)
    ensures s == ":" + s[1..n - 1] + ":" + s[n..] && GoodName(s[1..n - 1])
  {
    hide Listed;
    forall c <- s[1..n - 1]
      ensures Listed(c)
    {
      var k :| 0 <= k < n - 2 && s[1..n - 1][k] == c;
      assert s[k + 1] == c;
    }
  }

  lemma PartsMakeToken(name: string, rest: string)
    requires GoodName(name)
    ensures var s, n := ":" + name + ":" + rest, |name| + 2;
            IsToken(s, n) && s[n..] == rest && s[1..n - 1] == name
  {
    hide Listed;
    var s := ":" + name + ":" + rest;
    assert forall k | 0 < k < |name| + 1 :: s[k] == name[k - 1] && name[k - 1] in name;
  }

  /** The text that pieces are cut from. */
  function Spelled(pieces: seq<Piece>): string
  {
    if pieces == [] then ""
    else (if pieces[0].Token? then ":" + pieces[0].name + ":" else [pieces[0].c]) + Spelled(pieces[1..])
  }

  /** Tokens have names, and no token starts at a gap: each is the leftmost there is. */
  ghost predicate Leftmost(pieces: seq<Piece>)
  {
    pieces == [] ||
      (Leftmost(pieces[1..]) &&
       if pieces[0].Token? then GoodName(pieces[0].name)
       else forall n :: !IsToken(Spelled(pieces), n))
  }

  lemma PiecesCons(text: string)
    requires text != ""
    ensures var n := TokenAt(text);
            Pieces(text) == if n > 0 then [Token(text[1..n - 1])] + Pieces(text[n..]) else [Gap(text[0])] + Pieces(text[1..])
  {
  }

  lemma SpelledCons(piece: Piece, rest: seq<Piece>)
    ensures Spelled([piece] + rest) == (if piece.Token? then ":" + piece.name + ":" else [piece.c]) + Spelled(rest)
    ensures Leftmost([piece] + rest) <==>
      Leftmost(rest) &&
      if piece.Token? then GoodName(piece.name) else forall n :: !IsToken([piece.c] + Spelled(rest), n)
  {
    assert ([piece] + rest)[1..] == rest;
  }

  lemma {:induction false} PiecesSpell(text: string)
    ensures Spelled(Pieces(text)) == text && Leftmost(Pieces(text))
  {
    if text != "" {
      var n := TokenAt(text);
      TokenExactly(text, n);
      PiecesCons(text);
      hide *;
      if n > 0 {
        TokenParts(text, n);
        PiecesSpell(text[n..]);
        SpelledCons(Token(text[1..n - 1]), Pieces(text[n..]));
      } else {
        PiecesSpell(text[1..]);
        assert text == [text[0]] + text[1..];
        SpelledCons(Gap(text[0]), Pieces(text[1..]));
      }
    }
  }

  /**
   * The scan cuts a text into its leftmost, non-overlapping tokens and the characters
   * between them: it is the only way to cut it so that no token starts at such a character.
   */
  lemma {:induction false} PiecesExactly(text: string, pieces: seq<Piece>)
    ensures pieces == Pieces(text) <==> Spelled(pieces) == text && Leftmost(pieces)
    decreases |pieces|
  {
    PiecesSpell(text);
    if pieces != [] && Spelled(pieces) == text && Leftmost(pieces) {
      var piece, more := pieces[0], pieces[1..];
      var rest := Spelled(more);
      assert pieces == [piece] + more;
      PiecesExactly(rest, more);
      SpelledCons(piece, more);
      FirstPiece(text, piece, rest);
    } else if pieces == [] {
      assert Spelled(pieces) == "";
    }
  }

  lemma FirstPiece(text: string, piece: Piece, rest: string)
    requires text == (if piece.Token? then ":" + piece.name + ":" else [piece.c]) + rest
    requires if piece.Token? then GoodName(piece.name) else forall n :: !IsToken(text, n)
    ensures Pieces(text) == [piece] + Pieces(rest)
  {
    PiecesCons(text);
    match piece {
      case Token(name) =>
        PartsMakeToken(name, rest);
        TokenExactly(text, |name| + 2);
        hide *;
      case Gap(c) =>
        TokenExactly(text, 0);
        hide *;
        assert text[1..] == rest;
    }
  }

  // Tokens survive escaping ----------------------------------------------------

  /** All that matching can see of an escaped character. */
  lemma EscapedChar(c: char)
    ensures EscapeChar(c) != ""
    ensures NameChar(c) || c == ':' ==> EscapeChar(c) == [c]
    ensures c != ':' ==> ':' !in EscapeChar(c)
    ensures !NameChar(c) ==> !NameChar(EscapeChar(c)[0])
  {
  }

  lemma {:induction false} EscapedNameRun(s: string)
    ensures NameRun(Escape(s)) == NameRun(s)
    ensures Escape(s)[..NameRun(s)] == s[..NameRun(s)]
    ensures Escape(s)[NameRun(s)..] == Escape(s[NameRun(s)..])
  {
    hide EscapeChar, NameChar;
    if s != "" {
      EscapedChar(s[0]);
      var rest := Escape(s[1..]);
      if NameChar(s[0]) {
        EscapedNameRun(s[1..]);
        var n := NameRun(s[1..]);
        assert Escape(s) == [s[0]] + rest;
        assert Escape(s)[1..] == rest;
        assert Escape(s)[..n + 1] == [s[0]] + rest[..n];
        assert s[..n + 1] == [s[0]] + s[1..][..n];
        assert s[n + 1..] == s[1..][n..];
        assert Escape(s)[n + 1..] == rest[n..];
      } else {
        assert Escape(s)[0] == EscapeChar(s[0])[0];
      }
    }
  }

  lemma {:induction false} AllNameChars(s: string, k: nat)
    requires k < NameRun(s)
    ensures NameChar(s[k])
  {
    if k > 0 {
      AllNameChars(s[1..], k - 1);
    }
  }

  lemma EscapedColon(s: string)
    ensures s != "" && s[0] == ':' ==> Escape(s) == [':'] + Escape(s[1..])
    ensures (s != "" && s[0] == ':') <==> (Escape(s) != "" && Escape(s)[0] == ':')
  {
    hide EscapeChar, NameChar;
    if s != "" {
      EscapedChar(s[0]);
      assert Escape(s)[0] == EscapeChar(s[0])[0];
      assert s[0] != ':' ==> EscapeChar(s[0])[0] != ':' by {
        assert EscapeChar(s[0])[0] in EscapeChar(s[0]);
      }
    }
  }

  /** A token sits at the head of the raw text exactly when it does once escaped. */
  lemma EscapedTokenAt(s: string)
    ensures TokenAt(Escape(s)) == TokenAt(s)
    ensures Escape(s)[..TokenAt(s)] == s[..TokenAt(s)]
    ensures Escape(s)[TokenAt(s)..] == Escape(s[TokenAt(s)..])
  {
    hide EscapeChar, NameChar, NameRun, Escape;
    EscapedColon(s);
    if s != "" && s[0] == ':' {
      var n := NameRun(s[1..]);
      EscapedNameRun(s[1..]);
      var tail := s[1..][n..];
      EscapedColon(tail);
      var e := Escape(s);
      assert e[1..] == Escape(s[1..]);
      assert tail == s[n + 1..];
      assert e[n + 1..] == e[1..][n..] == Escape(tail);
      if 0 < n && tail != "" && tail[0] == ':' {
        assert e[n + 1] == ':' && s[n + 1] == ':';
        assert e[n + 2..] == e[n + 1..][1..] == Escape(tail[1..]);
        assert s[n + 2..] == tail[1..];
        assert s[..n + 2] == [':'] + s[1..][..n] + [':'];
        assert e[..n + 2] == [':'] + e[1..][..n] + [':'];
      } else if n + 1 < |e| {
        assert e[n + 1] == Escape(tail)[0];
      }
    } else {
      assert Escape(s)[0..] == Escape(s);
      assert s[0..] == s;
    }
  }

  lemma NoTokenHere(s: string, table: Table)
    requires s != "" && s[0] != ':'
    ensures ReplaceTokens(s, table) == [s[0]] + ReplaceTokens(s[1..], table)
    ensures TokenNames(Pieces(s)) == TokenNames(Pieces(s[1..]))
  {
  }

  /** Text without a colon passes through the matcher untouched and holds no token. */
  lemma {:induction false} ReplaceAfter(prefix: string, rest: string, table: Table)
    requires ':' !in prefix
    ensures ReplaceTokens(prefix + rest, table) == prefix + ReplaceTokens(rest, table)
    ensures TokenNames(Pieces(prefix + rest)) == TokenNames(Pieces(rest))
  {
    if prefix == "" {
      assert prefix + rest == rest;
    } else {
      hide *;
      var s := prefix + rest;
      assert s[1..] == prefix[1..] + rest;
      assert s[0] == prefix[0] && prefix[0] in prefix;
      NoTokenHere(s, table);
      ReplaceAfter(prefix[1..], rest, table);
      Regroup([prefix[0]], prefix[1..], ReplaceTokens(rest, table));
      assert prefix == [prefix[0]] + prefix[1..];
    }
  }

  lemma TokenText(s: string)
    requires TokenAt(s) > 0
    ensures ":" + s[1..TokenAt(s) - 1] + ":" == s[..TokenAt(s)]
  {
  }

  /** Escaping first and matching second is matching first and escaping only the gaps. */
  lemma {:induction false} EscapeThenMatch(text: string, table: Table)
    ensures ReplaceEmotes(text, table) == Render(Pieces(text), table)
  {
    hide EscapeChar, NameChar, TokenAt;
    if text != "" {
      var n := TokenAt(text);
      EscapedTokenAt(text);
      if n > 0 {
        EscapeThenMatch(text[n..], table);
        TokenText(text);
        assert text[..n][1..|text[..n]| - 1] == text[1..n - 1];
        assert Pieces(text)[1..] == Pieces(text[n..]);
        assert Escape(text) != "" by { EscapedChar(text[0]); }
      } else {
        EscapeThenMatch(text[1..], table);
        EscapedChar(text[0]);
        assert Pieces(text)[1..] == Pieces(text[1..]);
        if text[0] == ':' {
          assert Escape(text)[1..] == Escape(text[1..]);
        } else {
          ReplaceAfter(EscapeChar(text[0]), Escape(text[1..]), table);
        }
      }
    }
  }

  /** Escaping neither creates, destroys nor splits a token. */
  lemma {:induction false} EscapingKeepsTokens(text: string)
    ensures TokenNames(Pieces(Escape(text))) == TokenNames(Pieces(text))
  {
    hide EscapeChar, NameChar, TokenAt;
    if text != "" {
      var n := TokenAt(text);
      EscapedTokenAt(text);
      EscapedChar(text[0]);
      if n > 0 {
        EscapingKeepsTokens(text[n..]);
        assert Escape(text)[1..n - 1] == Escape(text)[..n][1..n - 1] == text[1..n - 1];
        assert Pieces(Escape(text))[1..] == Pieces(Escape(text[n..]));
        assert Pieces(text)[1..] == Pieces(text[n..]);
      } else {
        EscapingKeepsTokens(text[1..]);
        assert Pieces(text)[1..] == Pieces(text[1..]);
        if text[0] == ':' {
          assert Escape(text)[1..] == Escape(text[1..]);
          assert Pieces(Escape(text))[1..] == Pieces(Escape(text[1..]));
        } else {
          ReplaceAfter(EscapeChar(text[0]), Escape(text[1..]), map[]);
        }
      }
    }
  }

  // Nothing is lost, and nothing unescaped gets through ------------------------------

  /** The rendered message as alternating escaped text and inserted emotes. */
  datatype Segment = Plain(text: string) | Emote(name: string, html: string)

  function Prepend(text: string, segments: seq<Segment>): seq<Segment>
  {
    if segments != [] && segments[0].Plain? then [Plain(text + segments[0].text)] + segments[1..]
    else [Plain(text)] + segments
  }

  function Segments(pieces: seq<Piece>, table: Table): seq<Segment>
  {
    if pieces == [] then []
    else
      var rest := Segments(pieces[1..], table);
      var piece := pieces[0];
      if piece.Token? && piece.name in table then [Emote(piece.name, table[piece.name])] + rest
      else Prepend(RenderPiece(piece, table), rest)
  }

  function SegmentText(segment: Segment): string
  {
    match segment
    case Plain(text) => text
    case Emote(_, html) => html
  }

  function SegmentSource(segment: Segment): string
  {
    match segment
    case Plain(text) => Unescape(text)
    case Emote(name, _) => ":" + name + ":"
  }

  function Flatten(segments: seq<Segment>): string
  {
    if segments == [] then "" else SegmentText(segments[0]) + Flatten(segments[1..])
  }

  /** Undo the rendering: unescape the text, put the names back for the emotes. */
  function Restore(segments: seq<Segment>): string
  {
    if segments == [] then "" else SegmentSource(segments[0]) + Restore(segments[1..])
  }

  predicate MarkupFree(text: string) {
    '<' !in text && '>' !in text && '"' !in text && '\'' !in text
  }

  /** Either text without markup or the table's own value for a name. */
  predicate SafeSegment(segment: Segment, table: Table) {
    match segment
    case Plain(text) => MarkupFree(text)
    case Emote(name, html) => name in table && html == table[name]
  }

  lemma DecodeEscapedChar(c: char, rest: string)
    ensures Decode(EscapeChar(c) + rest) == (if c == NUL then REPLACEMENT else c, |EscapeChar(c)|)
  {
  }

  lemma UnescapeEscapedChar(c: char, rest: string)
    ensures Unescape(EscapeChar(c) + rest) == [if c == NUL then REPLACEMENT else c] + Unescape(rest)
  {
    DecodeEscapedChar(c, rest);
    hide EscapeChar, Decode;
    EscapedChar(c);
    assert (EscapeChar(c) + rest)[|EscapeChar(c)|..] == rest;
  }

  lemma UnescapeStep(s: string)
    requires s != "" && s[0] != '&'
    ensures Unescape(s) == [s[0]] + Unescape(s[1..])
  {
  }

  lemma {:induction false} UnescapePlain(prefix: string, rest: string)
    requires '&' !in prefix
    ensures Unescape(prefix + rest) == prefix + Unescape(rest)
  {
    if prefix == "" {
      assert prefix + rest == rest;
    } else {
      hide *;
      var s := prefix + rest;
      assert s[1..] == prefix[1..] + rest;
      assert s[0] == prefix[0] && prefix[0] in prefix;
      UnescapeStep(s);
      UnescapePlain(prefix[1..], rest);
      Regroup([prefix[0]], prefix[1..], Unescape(rest));
      assert prefix == [prefix[0]] + prefix[1..];
    }
  }

  /** The raw text a piece stands for, with NUL replaced as escaping replaces it. */
  function PieceText(piece: Piece): string
  {
    match piece
    case Gap(c) => [if c == NUL then REPLACEMENT else c]
    case Token(name) => ":" + name + ":"
  }

  predicate NameText(name: string) {
    forall c <- name :: NameChar(c)
  }

  lemma UnescapePiece(piece: Piece, table: Table, rest: string)
    requires piece.Token? ==> NameText(piece.name) && piece.name !in table
    ensures Unescape(RenderPiece(piece, table) + rest) == PieceText(piece) + Unescape(rest)
  {
    hide Unescape;
    match piece {
      case Gap(c) => UnescapeEscapedChar(c, rest);
      case Token(name) => UnescapePlain(":" + name + ":", rest);
    }
  }

  lemma RestorePrepend(piece: Piece, table: Table, segments: seq<Segment>)
    requires piece.Token? ==> NameText(piece.name) && piece.name !in table
    ensures Restore(Prepend(RenderPiece(piece, table), segments)) == PieceText(piece) + Restore(segments)
    ensures Flatten(Prepend(RenderPiece(piece, table), segments)) == RenderPiece(piece, table) + Flatten(segments)
  {
    var shown := RenderPiece(piece, table);
    hide RenderPiece, PieceText, NameText, Unescape;
    if segments != [] && segments[0].Plain? {
      UnescapePiece(piece, table, segments[0].text);
      assert Prepend(shown, segments)[1..] == segments[1..];
    } else {
      UnescapePiece(piece, table, "");
      assert Unescape("") == "" by { EmptyUnescape(); }
      assert shown + "" == shown && PieceText(piece) + "" == PieceText(piece);
      assert Prepend(shown, segments)[1..] == segments;
    }
  }

  lemma EmptyUnescape()
    ensures Unescape("") == ""
  {
  }

  lemma {:induction false} TokenNameText(s: string)
    requires TokenAt(s) > 0
    ensures NameText(s[1..TokenAt(s) - 1])
  {
    var n := TokenAt(s);
    var name := s[1..n - 1];
    forall k | 0 <= k < |name|
      ensures NameChar(name[k])
    {
      AllNameChars(s[1..], k);
      assert name[k] == s[1..][k];
    }
  }

  lemma {:induction false} WithoutNulAppend(a: string, b: string)
    ensures WithoutNul(a + b) == WithoutNul(a) + WithoutNul(b)
  {
    if a == "" {
      assert a + b == b;
    } else {
      assert (a + b)[1..] == a[1..] + b;
      WithoutNulAppend(a[1..], b);
    }
  }

  lemma {:induction false} WithoutNulExact(s: string)
    ensures WithoutNul(s) == s <==> NUL !in s
  {
    if s != "" {
      WithoutNulExact(s[1..]);
      assert s == [s[0]] + s[1..];
      assert WithoutNul(s)[1..] == WithoutNul(s[1..]);
    }
  }

  lemma TokenWithoutNul(s: string)
    requires TokenAt(s) > 0
    ensures WithoutNul(s[..TokenAt(s)]) == s[..TokenAt(s)]
  {
    TokenText(s);
    TokenNameText(s);
    WithoutNulExact(s[..TokenAt(s)]);
  }

  lemma {:induction false} SegmentsOfText(text: string, table: Table)
    ensures Flatten(Segments(Pieces(text), table)) == Render(Pieces(text), table)
    ensures Restore(Segments(Pieces(text), table)) == WithoutNul(text)
  {
    if text != "" {
      var n := TokenAt(text);
      var pieces := Pieces(text);
      var rest := text[if n > 0 then n else 1..];
      SegmentsOfText(rest, table);
      assert pieces[1..] == Pieces(rest);
      if n > 0 {
        TokenText(text);
        TokenNameText(text);
        TokenWithoutNul(text);
        assert text == text[..n] + rest;
        WithoutNulAppend(text[..n], rest);
      }
      hide TokenAt, RenderPiece, NameText, Prepend;
      if n == 0 || text[1..n - 1] !in table {
        RestorePrepend(pieces[0], table, Segments(pieces[1..], table));
      } else {
        assert Segments(pieces, table)[1..] == Segments(pieces[1..], table);
      }
    }
  }

  /** No two neighbouring segments are both text: the text segments are maximal. */
  predicate Maximal(segments: seq<Segment>) {
    forall i | 0 < i < |segments| :: !(segments[i - 1].Plain? && segments[i].Plain?)
  }

  lemma PlainIsMarkupFree(piece: Piece, table: Table)
    requires piece.Token? ==> NameText(piece.name) && piece.name !in table
    ensures MarkupFree(RenderPiece(piece, table))
  {
  }

  lemma PrependWellFormed(text: string, segments: seq<Segment>, table: Table)
    requires MarkupFree(text)
    requires Maximal(segments) && forall s <- segments :: SafeSegment(s, table)
    ensures Maximal(Prepend(text, segments)) && forall s <- Prepend(text, segments) :: SafeSegment(s, table)
  {
    if segments != [] {
      assert SafeSegment(segments[0], table);
    }
  }

  lemma {:induction false} SegmentsWellFormed(pieces: seq<Piece>, table: Table)
    requires forall p <- pieces :: p.Token? ==> NameText(p.name)
    ensures Maximal(Segments(pieces, table))
    ensures forall s <- Segments(pieces, table) :: SafeSegment(s, table)
  {
    hide MarkupFree, RenderPiece, NameText, Prepend;
    if pieces != [] {
      SegmentsWellFormed(pieces[1..], table);
      var piece, rest := pieces[0], Segments(pieces[1..], table);
      if !(piece.Token? && piece.name in table) {
        PlainIsMarkupFree(piece, table);
        PrependWellFormed(RenderPiece(piece, table), rest, table);
      }
    }
  }

  lemma {:induction false} PiecesHaveNames(text: string)
    ensures forall p <- Pieces(text) :: p.Token? ==> NameText(p.name)
  {
    if text != "" {
      var n := TokenAt(text);
      if n > 0 {
        TokenNameText(text);
        PiecesHaveNames(text[n..]);
      } else {
        PiecesHaveNames(text[1..]);
      }
    }
  }

  /**
   * What the server emits is a list of maximal segments: text in which no markup
   * character survives, and table entries for known names, verbatim. Unescaping the
   * text and putting the names back gives the message again, exactly when the
   * message has no NUL.
   */
  lemma RenderedIsSafeAndLossless(text: string, table: Table)
    ensures var segments := Segments(Pieces(text), table);
            && Flatten(segments) == ReplaceEmotes(text, table)
            && (forall s <- segments :: SafeSegment(s, table))
            && Maximal(segments)
            && (Restore(segments) == text <==> NUL !in text)
  {
    hide *;
    EscapeThenMatch(text, table);
    SegmentsOfText(text, table);
    WithoutNulExact(text);
    PiecesHaveNames(text);
    SegmentsWellFormed(Pieces(text), table);
  }

  // ---------------------------------------------------------------------------
  // The table and its directory scans
  // ---------------------------------------------------------------------------

  const TEXT_EMOTES: Table := map["smile" := "😀", "heart" := "❤️"]

  predicate ImageExtension(ext: string) {
    ext == ".svg" || ext == ".png" || ext == ".gif" || ext == ".webp"
  }

  datatype DirEntry = DirEntry(name: string, isDir: bool)

  /** filepath.Ext of a name without separators: from the last dot on. */
  function Ext(name: string): (ext: string)
    ensures |ext| <= |name| && name[|name| - |ext|..] == ext
  {
    if name == "" then ""
    else if name[|name| - 1] == '.' then "."
    else
      var shorter := Ext(name[..|name| - 1]);
      if shorter == "" then "" else shorter + [name[|name| - 1]]
  }

  function LowerChar(c: char): char
  {
    if 'A' <= c <= 'Z' then (c as int + 32) as char else c
  }

  function ToLower(s: string): (lower: string)
    ensures |lower| == |s|
    ensures forall i | 0 <= i < |s| :: lower[i] == LowerChar(s[i])
  {
    if s == "" then "" else [LowerChar(s[0])] + ToLower(s[1..])
  }

  function TrimSuffix(s: string, suffix: string): string
  {
    if |suffix| <= |s| && s[|s| - |suffix|..] == suffix then s[..|s| - |suffix|] else s
  }

  predicate ValidName(name: string) {
    name != "" && NameText(name)
  }

  function ImageTag(file: string, name: string): string
  {
    "<img src=\"" + ("/emotes/" + file) + "\" alt=\":" + Escape(name) + ":\" class=\"emote\">"
  }

  /** The emote a directory entry defines, if any. */
  function EmoteName(entry: DirEntry): Option<string>
  {
    var ext := ToLower(Ext(entry.name));
    if entry.isDir || !ImageExtension(ext) then None
    else
      var name := TrimSuffix(entry.name, ext);
      if ValidName(name) then Some(name) else None
  }

  /** The image emotes of a listing; a later file of the same name wins. */
  function Loaded(entries: seq<DirEntry>): Table
  {
    if entries == [] then map[]
    else
      var earlier := Loaded(entries[..|entries| - 1]);
      var entry := entries[|entries| - 1];
      match EmoteName(entry)
      case None => earlier
      case Some(name) => earlier[name := ImageTag(entry.name, name)]
  }

  /** The table after a scan: the entries under text-emote names, then the files. */
  function AfterScan(table: Table, entries: seq<DirEntry>): Table
  {
    (map name | name in table && name in TEXT_EMOTES :: table[name]) + Loaded(entries)
  }

  class EmoteTable {
    var emotes: Table

    constructor ()
      ensures emotes == TEXT_EMOTES
    {
      emotes := TEXT_EMOTES;
    }

    /** A scan; None stands for a directory that cannot be read. */
    method ScanImageEmotes(listing: Option<seq<DirEntry>>)
      modifies this
      ensures emotes == if listing.None? then old(emotes) else AfterScan(old(emotes), listing.value)
    {
      if listing.None? {
        return;
      }
      var entries := listing.value;
      var loaded: Table := map[];
      for i := 0 to |entries|
        invariant loaded == Loaded(entries[..i])
        invariant emotes == old(emotes)
      {
        assert entries[..i + 1][..i] == entries[..i];
        var entry := entries[i];
        if entry.isDir {
          continue;
        }
        var ext := ToLower(Ext(entry.name));
        if !ImageExtension(ext) {
          continue;
        }
        var name := TrimSuffix(entry.name, ext);
        if !ValidName(name) {
          continue;
        }
        loaded := loaded[name := ImageTag(entry.name, name)];
      }
      assert entries[..|entries|] == entries;
      DropImages();
      Insert(loaded);
    }

    /** Drop every entry whose name is not a text emote. */
    method DropImages()
      modifies this
      ensures emotes == map name | name in old(emotes) && name in TEXT_EMOTES :: old(emotes)[name]
    {
      var keys := emotes.Keys;
      while keys != {}
        invariant keys <= old(emotes).Keys
        invariant forall name :: name in emotes <==> name in old(emotes) && (name in keys || name in TEXT_EMOTES)
        invariant forall name <- emotes :: emotes[name] == old(emotes)[name]
        decreases |keys|
      {
        hide TEXT_EMOTES;
        var key :| key in keys;
        keys := keys - {key};
        if key !in TEXT_EMOTES {
          emotes := emotes - {key};
        }
      }
    }

    method Insert(loaded: Table)
      modifies this
      ensures emotes == old(emotes) + loaded
    {
      var names := loaded.Keys;
      while names != {}
        invariant names <= loaded.Keys
        invariant emotes == old(emotes) + (loaded - names)
        decreases |names|
      {
        var name :| name in names;
        names := names - {name};
        emotes := emotes[name := loaded[name]];
      }
      assert loaded - {} == loaded;
    }
  }

  lemma ShorterExt(stem: string, ext: string)
    requires |ext| > 1 && '.' !in ext[1..]
    ensures var name, shorter, last := stem + ext, ext[..|ext| - 1], ext[|ext| - 1];
            && name[..|name| - 1] == stem + shorter && name[|name| - 1] == last && last != '.'
            && '.' !in shorter[1..] && shorter + [last] == ext
  {
    var shorter, last := ext[..|ext| - 1], ext[|ext| - 1];
    assert last == ext[1..][|ext| - 2] && last in ext[1..];
    assert shorter[1..] == ext[1..][..|ext| - 2];
  }

  lemma {:induction false} ExtOf(stem: string, ext: string)
    requires ext != "" && ext[0] == '.' && '.' !in ext[1..]
    ensures Ext(stem + ext) == ext
  {
    if |ext| > 1 {
      ShorterExt(stem, ext);
      ExtOf(stem, ext[..|ext| - 1]);
    }
  }

  lemma {:induction false} ExtHasDot(name: string)
    requires Ext(name) != ""
    ensures Ext(name)[0] == '.'
  {
    if name[|name| - 1] != '.' {
      ExtHasDot(name[..|name| - 1]);
    }
  }

  lemma LowerExtensions(ext: string)
    requires ImageExtension(ext)
    ensures ext != "" && ext[0] == '.' && '.' !in ext[1..]
    ensures forall c <- ext :: !('A' <= c <= 'Z')
  {
  }

  lemma LowerIdentity(s: string)
    requires forall c <- s :: !('A' <= c <= 'Z')
    ensures ToLower(s) == s
  {
    assert forall i | 0 <= i < |s| :: s[i] in s;
  }

  /** A file that defines an emote has its extension in lower case already. */
  lemma EmoteFileName(entry: DirEntry)
    requires EmoteName(entry).Some?
    ensures !entry.isDir && ValidName(EmoteName(entry).value)
    ensures ImageExtension(Ext(entry.name))
    ensures entry.name == EmoteName(entry).value + Ext(entry.name)
  {
    var name, raw := entry.name, Ext(entry.name);
    var ext := ToLower(raw);
    assert ext != "" by { LowerExtensions(ext); }
    ExtHasDot(name);
    hide ImageExtension, ToLower, Ext;
    // Otherwise the suffix would not be cut off, and a name with a dot is not valid.
    assert !NameText(name) by {
      assert name[|name| - |raw|] == '.' && '.' in name;
    }
    assert name[|name| - |ext|..] == raw;
    assert raw == ext;
  }

  lemma GoodNamesAre(name: string)
    ensures ValidName(name) <==> GoodName(name)
  {
    forall c <- name
      ensures NameChar(c) <==> Listed(c)
    {
      NameCharsAre(c);
    }
    hide NameChar, Listed;
  }

  /** The entry is a file of that name and one of the supported extensions, in lower case. */
  predicate Defines(entry: DirEntry, stem: string)
  {
    && !entry.isDir && GoodName(stem)
    && (entry.name == stem + ".svg" || entry.name == stem + ".png"
        || entry.name == stem + ".gif" || entry.name == stem + ".webp")
  }

  lemma ExtensionOf(name: string, stem: string)
    ensures (ImageExtension(Ext(name)) && name == stem + Ext(name)) <==>
      name == stem + ".svg" || name == stem + ".png" || name == stem + ".gif" || name == stem + ".webp"
  {
    ExtOf(stem, ".svg");
    ExtOf(stem, ".png");
    ExtOf(stem, ".gif");
    ExtOf(stem, ".webp");
    hide Ext;
  }

  /**
   * Despite the lower-casing of the extension, a file defines an emote exactly when its name
   * is that emote's, with a supported extension in lower case behind it.
   */
  lemma EmoteFilesExact(entry: DirEntry, stem: string)
    ensures EmoteName(entry) == Some(stem) <==> Defines(entry, stem)
  {
    GoodNamesAre(stem);
    ExtensionOf(entry.name, stem);
    hide GoodName;
    if EmoteName(entry) == Some(stem) {
      EmoteFileName(entry);
    }
    if Defines(entry, stem) {
      var ext := Ext(entry.name);
      LowerExtensions(ext);
      LowerIdentity(ext);
      hide ImageExtension, ToLower, Ext, NameText;
      assert entry.name[..|stem|] == stem && entry.name[|stem|..] == ext;
    }
  }

  lemma {:induction false} PlainNames(name: string)
    requires forall c <- name :: Listed(c)
    ensures Escape(name) == name
  {
    hide Listed, NameChar, EscapeChar;
    if name != "" {
      NameCharsAre(name[0]);
      EscapedChar(name[0]);
      PlainNames(name[1..]);
      assert name == [name[0]] + name[1..];
    }
  }

  /** Entry i is the last of the listing to define the name. */
  predicate LastToDefine(entries: seq<DirEntry>, i: nat, name: string)
    requires i < |entries|
  {
    Defines(entries[i], name) && forall j | i < j < |entries| :: !Defines(entries[j], name)
  }

  /** The element that shows an emote. */
  function TagOf(file: string, name: string): string
  {
    "<img src=\"/emotes/" + file + "\" alt=\":" + name + ":\" class=\"emote\">"
  }

  predicate DefinedIn(entries: seq<DirEntry>, name: string)
  {
    exists i | 0 <= i < |entries| :: Defines(entries[i], name)
  }

  lemma DefinedMore(entries: seq<DirEntry>, name: string)
    requires entries != []
    ensures DefinedIn(entries, name) <==>
      DefinedIn(entries[..|entries| - 1], name) || Defines(entries[|entries| - 1], name)
  {
    hide Defines;
    var before := entries[..|entries| - 1];
    assert forall i | 0 <= i < |before| :: before[i] == entries[i];
  }

  /** A listing defines exactly the names of its emote files. */
  lemma {:induction false} LoadedExactly(entries: seq<DirEntry>, name: string)
    ensures name in Loaded(entries) <==> DefinedIn(entries, name)
  {
    if entries != [] {
      hide *;
      LoadedExactly(entries[..|entries| - 1], name);
      DefinedMore(entries, name);
      LoadedMore(entries, name);
    }
  }

  lemma LastBefore(entries: seq<DirEntry>, i: nat, name: string)
    requires i < |entries| && LastToDefine(entries, i, name)
    ensures if i == |entries| - 1 then Defines(entries[|entries| - 1], name)
            else !Defines(entries[|entries| - 1], name) && LastToDefine(entries[..|entries| - 1], i, name)
  {
    hide Defines;
  }

  /** The last file of a name gives its image: an `img` element with the path and the name. */
  lemma {:induction false} LastFileWins(entries: seq<DirEntry>, i: nat, name: string)
    requires i < |entries| && LastToDefine(entries, i, name)
    ensures name in Loaded(entries) && Loaded(entries)[name] == TagOf(entries[i].name, name)
  {
    hide *;
    LastBefore(entries, i, name);
    LoadedMore(entries, name);
    if i < |entries| - 1 {
      LastFileWins(entries[..|entries| - 1], i, name);
    }
  }

  /** What the last entry of a listing does. */
  lemma LoadedMore(entries: seq<DirEntry>, name: string)
    requires entries != []
    ensures var earlier, entry := Loaded(entries[..|entries| - 1]), entries[|entries| - 1];
            if Defines(entry, name) then name in Loaded(entries) && Loaded(entries)[name] == TagOf(entry.name, name)
            else (name in Loaded(entries) <==> name in earlier)
                 && (name in earlier ==> Loaded(entries)[name] == earlier[name])
  {
    var entry := entries[|entries| - 1];
    LoadedIs(entries);
    EmoteFilesExact(entry, name);
    hide Loaded, EmoteName, ImageTag, TagOf, GoodName;
    if Defines(entry, name) {
      TagText(entry.name, name);
    }
  }

  lemma LoadedIs(entries: seq<DirEntry>)
    requires entries != []
    ensures var earlier, entry := Loaded(entries[..|entries| - 1]), entries[|entries| - 1];
            Loaded(entries) == match EmoteName(entry)
                               case None => earlier
                               case Some(name) => earlier[name := ImageTag(entry.name, name)]
  {
    hide EmoteName, ImageTag;
  }

  lemma TagText(file: string, name: string)
    requires GoodName(name)
    ensures ImageTag(file, name) == TagOf(file, name)
  {
    PlainNames(name);
    assert "<img src=\"" + "/emotes/" == "<img src=\"/emotes/";
    assert "<img src=\"" + ("/emotes/" + file) == "<img src=\"/emotes/" + file;
  }

  lemma {:induction false} LoadedAreTags(entries: seq<DirEntry>)
    ensures forall name <- Loaded(entries) :: Loaded(entries)[name] != "" && Loaded(entries)[name][0] == '<'
  {
    if entries != [] {
      LoadedAreTags(entries[..|entries| - 1]);
    }
  }

  /** The table after any run of scans from the built-in one; None is an unreadable directory. */
  function AfterScans(listings: seq<Option<seq<DirEntry>>>): Table
  {
    if listings == [] then TEXT_EMOTES
    else
      var before, last := AfterScans(listings[..|listings| - 1]), listings[|listings| - 1];
      if last.None? then before else AfterScan(before, last.value)
  }

  /** The image of the latest readable listing that has a file for the name. */
  function LatestImage(listings: seq<Option<seq<DirEntry>>>, name: string): Option<string>
  {
    if listings == [] then None
    else
      var last := listings[|listings| - 1];
      if last.Some? && name in Loaded(last.value) then Some(Loaded(last.value)[name])
      else LatestImage(listings[..|listings| - 1], name)
  }

  /** The latest listing that could be read. */
  function LatestListing(listings: seq<Option<seq<DirEntry>>>): seq<DirEntry>
  {
    if listings == [] then []
    else
      var last := listings[|listings| - 1];
      if last.Some? then last.value else LatestListing(listings[..|listings| - 1])
  }

  /**
   * The table after any run of scans: a built-in name shows the image of the latest scan
   * that found a file for it, its text if none ever did; any other name is there exactly
   * when the latest scan found it, with the image found then.
   */
  lemma {:induction false} ScansExactly(listings: seq<Option<seq<DirEntry>>>, name: string)
    ensures var t, found := AfterScans(listings), Loaded(LatestListing(listings));
            if name in TEXT_EMOTES then
              name in t && t[name] == (match LatestImage(listings, name)
                                       case Some(image) => image
                                       case None => TEXT_EMOTES[name])
            else (name in t <==> name in found) && (name in found ==> t[name] == found[name])
  {
    hide TEXT_EMOTES;
    if listings != [] {
      ScansExactly(listings[..|listings| - 1], name);
      hide Loaded;
    }
  }

  lemma {:induction false} LatestIsTag(listings: seq<Option<seq<DirEntry>>>, name: string)
    ensures LatestImage(listings, name).Some? ==>
      LatestImage(listings, name).value != "" && LatestImage(listings, name).value[0] == '<'
  {
    if listings != [] {
      LatestIsTag(listings[..|listings| - 1], name);
      if listings[|listings| - 1].Some? {
        LoadedAreTags(listings[|listings| - 1].value);
      }
    }
  }

  /**
   * A rescan is meant to make removed files disappear. After any scans, one more gives
   * what a first scan of the new listing would, exactly when every built-in name that
   * ever had a file still has one: built-in names are never dropped nor reset.
   */
  lemma RescanForgets(earlier: seq<Option<seq<DirEntry>>>, after: seq<DirEntry>)
    ensures AfterScans(earlier + [Some(after)]) == AfterScan(TEXT_EMOTES, after)
       <==> forall name <- TEXT_EMOTES :: LatestImage(earlier, name).Some? ==> name in Loaded(after)
  {
    assert (earlier + [Some(after)])[..|earlier|] == earlier;
    var once, many := AfterScan(TEXT_EMOTES, after), AfterScan(AfterScans(earlier), after);
    assert many == AfterScans(earlier + [Some(after)]);
    hide TEXT_EMOTES, Loaded, AfterScans, LatestImage, AfterScan;
    forall name: string
      ensures name in once <==> name in many
      ensures name in TEXT_EMOTES ==> name in once
      ensures name in once ==>
                (once[name] == many[name] <==>
                  (name in TEXT_EMOTES && LatestImage(earlier, name).Some? ==> name in Loaded(after)))
    {
      RescanName(earlier, after, name);
    }
  }

  lemma RescanName(earlier: seq<Option<seq<DirEntry>>>, after: seq<DirEntry>, name: string)
    ensures var once, many := AfterScan(TEXT_EMOTES, after), AfterScan(AfterScans(earlier), after);
            && (name in once <==> name in many) && (name in TEXT_EMOTES ==> name in once)
            && (name in once ==>
                  (once[name] == many[name] <==>
                    (name in TEXT_EMOTES && LatestImage(earlier, name).Some? ==> name in Loaded(after))))
  {
    TextEmotesAreNotTags();
    ScansExactly(earlier, name);
    LatestIsTag(earlier, name);
    hide TEXT_EMOTES, Loaded, AfterScans, LatestImage, LatestListing;
  }

  lemma TextEmotesAreNotTags()
    ensures forall name <- TEXT_EMOTES :: TEXT_EMOTES[name] != "" && TEXT_EMOTES[name][0] != '<'
  {
    assert TEXT_EMOTES["smile"][0] != '<' && TEXT_EMOTES["heart"][0] != '<';
  }

  lemma SmileIsName()
    ensures GoodName("smile")
  {
  }

  /** An image for a built-in name outlives its file. */
  lemma StaleBuiltIn()
    ensures AfterScans([Some([DirEntry("smile.png", false)]), Some([])]) != AfterScan(TEXT_EMOTES, [])
  {
    var entry := DirEntry("smile.png", false);
    var earlier := [Some([entry])];
    assert EmoteName(entry) == Some("smile") by {
      hide EmoteName, Ext;
      assert "smile" + ".png" == "smile.png";
      SmileIsName();
      hide GoodName;
      EmoteFilesExact(entry, "smile");
    }
    hide EmoteName, ImageTag;
    assert [entry][..0] == [];
    assert Loaded([entry]) == map["smile" := ImageTag("smile.png", "smile")];
    assert LatestImage(earlier, "smile").Some?;
    assert earlier + [Some([])] == [Some([entry]), Some([])];
    RescanForgets(earlier, []);
    assert "smile" in TEXT_EMOTES && "smile" !in Loaded([]);
  }
}
