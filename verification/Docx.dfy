/**
 Plain text of a DOCX body from its XML token stream (parseDocumentXML in
 internal/extraction/docx.go).
 */
module Docx {
  import opened Common
  import opened Text

  /** The local names the code looks for; Unnamed stands for every other one. */
  datatype Element = T | P | Tab | Br | Unnamed

  datatype Token = Open(element: Element) | Close(element: Element) | Chars(text: string) | Other

  // ---------- What the text should be ----------

  /** Before token n, the last opening or closing of a `t` element was an opening. */
  ghost predicate InText(tokens: seq<Token>, n: nat)
    requires n <= |tokens|
  {
    n > 0 && (tokens[n - 1] == Open(T) || (tokens[n - 1] != Close(T) && InText(tokens, n - 1)))
  }

  /** What a token adds to its paragraph. */
  function PieceOf(token: Token, inText: bool): string {
    match token
    case Open(Tab) => "\t"
    case Open(Br) => "\n"
    case Chars(text) => if inText then text else ""
    case _ => ""
  }

  ghost function Piece(tokens: seq<Token>, i: nat): string
    requires i < |tokens|
  {
    PieceOf(tokens[i], InText(tokens, i))
  }

  /** The text contributed by tokens a up to b. */
  ghost function Between(tokens: seq<Token>, a: nat, b: nat): string
    requires a <= b <= |tokens|
  {
    if a == b then "" else Between(tokens, a, b - 1) + Piece(tokens, b - 1)
  }

  /** Where the paragraph that is open before token n began. */
  ghost function ParagraphStart(tokens: seq<Token>, n: nat): (a: nat)
    requires n <= |tokens|
    ensures a <= n
    ensures forall i :: a <= i < n ==> tokens[i] != Close(P)
    ensures a > 0 ==> tokens[a - 1] == Close(P)
  {
    if n == 0 || tokens[n - 1] == Close(P) then n else ParagraphStart(tokens, n - 1)
  }

  /** The texts of the paragraphs closed before token n, in order. */
  ghost function ClosedParagraphs(tokens: seq<Token>, n: nat): seq<string>
    requires n <= |tokens|
  {
    if n == 0 then []
    else ClosedParagraphs(tokens, n - 1) +
         if tokens[n - 1] == Close(P) then [Between(tokens, ParagraphStart(tokens, n - 1), n - 1)] else []
  }

  /** The text so far of the paragraph that is open before token n. */
  ghost function OpenParagraph(tokens: seq<Token>, n: nat): string
    requires n <= |tokens|
  {
    Between(tokens, ParagraphStart(tokens, n), n)
  }

  /** All paragraphs, the unclosed rest included. */
  ghost function Paragraphs(tokens: seq<Token>): seq<string> {
    ClosedParagraphs(tokens, |tokens|) + [OpenParagraph(tokens, |tokens|)]
  }

  lemma OneToken(tokens: seq<Token>, n: nat)
    requires n < |tokens|
    ensures ClosedParagraphs(tokens, n + 1) ==
            if tokens[n] == Close(P) then ClosedParagraphs(tokens, n) + [OpenParagraph(tokens, n)]
            else ClosedParagraphs(tokens, n)
    ensures OpenParagraph(tokens, n + 1) ==
            if tokens[n] == Close(P) then "" else OpenParagraph(tokens, n) + Piece(tokens, n)
    ensures InText(tokens, n + 1) == (tokens[n] == Open(T) || (tokens[n] != Close(T) && InText(tokens, n)))
  {
    assert ClosedParagraphs(tokens, n) + [] == ClosedParagraphs(tokens, n);
  }

  function TrimBlanks(s: string): (r: string)
    ensures r <= s && (r == "" || (Last(r) != ' ' && Last(r) != '\t'))
    ensures forall i :: |r| <= i < |s| ==> s[i] == ' ' || s[i] == '\t'
  {
    if s != "" && (Last(s) == ' ' || Last(s) == '\t') then TrimBlanks(Front(s)) else s
  }

  /** The right-trimmed paragraphs that are not empty. */
  function Lines(paragraphs: seq<string>): (lines: seq<string>)
    ensures forall i :: 0 <= i < |lines| ==> lines[i] != ""
  {
    if paragraphs == [] then []
    else
      var text := TrimBlanks(Last(paragraphs));
      Lines(Front(paragraphs)) + if text != "" then [text] else []
  }

  function JoinLines(lines: seq<string>): string {
    if lines == [] then ""
    else if |lines| == 1 then lines[0]
    else JoinLines(Front(lines)) + "\n" + Last(lines)
  }

  // ---------- The code ----------

  lemma {:induction false} JoinedNonEmpty(lines: seq<string>)
    requires forall i :: 0 <= i < |lines| ==> lines[i] != ""
    ensures JoinLines(lines) == "" <==> lines == []
  {
    if |lines| > 1 {
      assert |JoinLines(Front(lines)) + "\n" + Last(lines)| > 0;
    }
  }

  method FlushParagraph(out: string, paragraph: string, ghost done: seq<string>) returns (out': string)
    requires out == JoinLines(Lines(done))
    ensures out' == JoinLines(Lines(done + [paragraph]))
  {
    var text := TrimBlanks(paragraph);
    out' := out;
    JoinedNonEmpty(Lines(done));
    assert Front(done + [paragraph]) == done;
    if text != "" {
      assert Front(Lines(done) + [text]) == Lines(done);
      if |out| > 0 {
        out' := out' + "\n";
      }
      out' := out' + text;
    } else {
      assert Lines(done) + [] == Lines(done);
    }
  }

  /** The switch on a token, apart from the end of a paragraph. */
  method ReadToken(token: Token, inText: bool, paragraph: string) returns (inText': bool, paragraph': string)
    ensures inText' == (token == Open(T) || (token != Close(T) && inText))
    ensures paragraph' == paragraph + PieceOf(token, inText)
  {
    inText', paragraph' := inText, paragraph;
    match token {
      case Open(element) =>
        match element {
          case T => inText' := true;
          case Tab => paragraph' := paragraph + "\t";
          case Br => paragraph' := paragraph + "\n";
          case _ =>
        }
      case Close(element) =>
        if element == T {
          inText' := false;
        }
      case Chars(chars) =>
        if inText {
          paragraph' := paragraph + chars;
        }
      case Other =>
    }
  }

  /** wellFormed says the decoder reaches the end of the input after these tokens. */
  method ParseDocumentXML(tokens: seq<Token>, wellFormed: bool) returns (text: Option<string>)
    ensures text == if wellFormed then Some(JoinLines(Lines(Paragraphs(tokens)))) else None
  {
    var out, paragraph, inText := "", "", false;
    for n := 0 to |tokens|
      invariant inText == InText(tokens, n)
      invariant paragraph == OpenParagraph(tokens, n)
      invariant out == JoinLines(Lines(ClosedParagraphs(tokens, n)))
    {
      OneToken(tokens, n);
      if tokens[n] == Close(P) {
        out := FlushParagraph(out, paragraph, ClosedParagraphs(tokens, n));
        paragraph := "";
      } else {
        inText, paragraph := ReadToken(tokens[n], inText, paragraph);
      }
    }
    if !wellFormed {
      return None;
    }
    out := FlushParagraph(out, paragraph, ClosedParagraphs(tokens, |tokens|));
    text := Some(out);
  }

  // ---------- Lines ----------

  /** The lines of two lists of paragraphs are those of the first and then those of the second. */
  lemma {:induction false} LinesAppend(ps: seq<string>, qs: seq<string>)
    ensures Lines(ps + qs) == Lines(ps) + Lines(qs)
    decreases |qs|
  {
    if qs == [] {
      assert ps + qs == ps;
    } else {
      assert Front(ps + qs) == ps + Front(qs);
      LinesAppend(ps, Front(qs));
    }
  }

  predicate Blank(p: string) {
    forall i :: 0 <= i < |p| ==> p[i] == ' ' || p[i] == '\t'
  }

  lemma TrimmedBlank(p: string)
    ensures TrimBlanks(p) == "" <==> Blank(p)
  {
    var r := TrimBlanks(p);
    if r != "" {
      assert r[|r| - 1] == p[|r| - 1];
    }
  }

  /** A paragraph gives one line, or none if nothing but blanks is in it. */
  lemma OneLine(p: string)
    ensures Lines([p]) == if Blank(p) then [] else [TrimBlanks(p)]
  {
    assert Front([p]) == [] && Last([p]) == p && Lines([]) == [];
    TrimmedBlank(p);
  }

  lemma {:induction false} JoinAppend(lines: seq<string>, line: string)
    requires lines != []
    ensures Join(lines + [line], '\n') == Join(lines, '\n') + "\n" + line
  {
    if |lines| == 1 {
      assert (lines + [line])[1..] == [line];
    } else {
      assert (lines + [line])[1..] == lines[1..] + [line];
      JoinAppend(lines[1..], line);
    }
  }

  /** Lines are joined by newlines. */
  lemma {:induction false} JoinLinesIsJoin(lines: seq<string>)
    requires lines != []
    ensures JoinLines(lines) == Join(lines, '\n')
  {
    if |lines| > 1 {
      JoinLinesIsJoin(Front(lines));
      JoinAppend(Front(lines), Last(lines));
      assert Front(lines) + [Last(lines)] == lines;
    }
  }

  // ---------- Reading a document back ----------

  lemma {:induction false} PrefixInText(tokens: seq<Token>, more: seq<Token>, n: nat)
    requires n <= |tokens|
    ensures InText(tokens + more, n) == InText(tokens, n)
  {
    if n > 0 {
      PrefixInText(tokens, more, n - 1);
    }
  }

  lemma {:induction false} PrefixBetween(tokens: seq<Token>, more: seq<Token>, a: nat, b: nat)
    requires a <= b <= |tokens|
    ensures Between(tokens + more, a, b) == Between(tokens, a, b)
  {
    if a < b {
      PrefixBetween(tokens, more, a, b - 1);
      PrefixInText(tokens, more, b - 1);
    }
  }

  lemma {:induction false} PrefixStart(tokens: seq<Token>, more: seq<Token>, n: nat)
    requires n <= |tokens|
    ensures ParagraphStart(tokens + more, n) == ParagraphStart(tokens, n)
  {
    if n > 0 {
      PrefixStart(tokens, more, n - 1);
    }
  }

  lemma {:induction false} PrefixClosed(tokens: seq<Token>, more: seq<Token>, n: nat)
    requires n <= |tokens|
    ensures ClosedParagraphs(tokens + more, n) == ClosedParagraphs(tokens, n)
  {
    if n > 0 {
      PrefixClosed(tokens, more, n - 1);
      PrefixStart(tokens, more, n - 1);
      PrefixBetween(tokens, more, ParagraphStart(tokens, n - 1), n - 1);
    }
  }

  /** What has been read after all these tokens: closed paragraphs, the open one, and whether in text. */
  ghost predicate Reads(tokens: seq<Token>, closed: seq<string>, open: string, inText: bool) {
    var n := |tokens|;
    ClosedParagraphs(tokens, n) == closed && OpenParagraph(tokens, n) == open && InText(tokens, n) == inText
  }

  lemma ReadOne(tokens: seq<Token>, token: Token, closed: seq<string>, open: string, inText: bool)
    requires Reads(tokens, closed, open, inText)
    ensures token == Close(P) ==> Reads(tokens + [token], closed + [open], "", inText)
    ensures token != Close(P) ==>
              Reads(tokens + [token], closed, open + PieceOf(token, inText),
                    token == Open(T) || (token != Close(T) && inText))
  {
    var n, all := |tokens|, tokens + [token];
    PrefixClosed(tokens, [token], n);
    PrefixStart(tokens, [token], n);
    PrefixBetween(tokens, [token], ParagraphStart(tokens, n), n);
    PrefixInText(tokens, [token], n);
    assert all[n] == token;
    OneToken(all, n);
  }

  /** A run of text, a tab or a line break. */
  datatype Bit = Words(text: string) | TabMark | LineBreak

  function BitTokens(b: Bit): seq<Token> {
    match b
    case Words(text) => [Open(T)] + [Chars(text)] + [Close(T)]
    case TabMark => [Open(Tab)] + [Close(Tab)]
    case LineBreak => [Open(Br)] + [Close(Br)]
  }

  function BitText(b: Bit): string {
    match b
    case Words(text) => text
    case TabMark => "\t"
    case LineBreak => "\n"
  }

  lemma Append3(s: seq<Token>, a: Token, b: Token, c: Token)
    ensures ((s + [a]) + [b]) + [c] == s + ([a] + [b] + [c])
    ensures (s + [a]) + [b] == s + ([a] + [b])
  {
  }

  lemma ReadBit(tokens: seq<Token>, b: Bit, closed: seq<string>, open: string)
    requires Reads(tokens, closed, open, false)
    ensures Reads(tokens + BitTokens(b), closed, open + BitText(b), false)
  {
    assert open + "" == open && (open + BitText(b)) + "" == open + BitText(b);
    match b {
      case Words(text) =>
        ReadOne(tokens, Open(T), closed, open, false);
        ReadOne(tokens + [Open(T)], Chars(text), closed, open, true);
        ReadOne((tokens + [Open(T)]) + [Chars(text)], Close(T), closed, open + text, true);
        Append3(tokens, Open(T), Chars(text), Close(T));
      case TabMark =>
        ReadOne(tokens, Open(Tab), closed, open, false);
        ReadOne(tokens + [Open(Tab)], Close(Tab), closed, open + "\t", false);
        Append3(tokens, Open(Tab), Close(Tab), Other);
      case LineBreak =>
        ReadOne(tokens, Open(Br), closed, open, false);
        ReadOne(tokens + [Open(Br)], Close(Br), closed, open + "\n", false);
        Append3(tokens, Open(Br), Close(Br), Other);
    }
  }

  function BitsTokens(bits: seq<Bit>): seq<Token> {
    if bits == [] then [] else BitsTokens(Front(bits)) + BitTokens(Last(bits))
  }

  function BitsText(bits: seq<Bit>): string {
    if bits == [] then "" else BitsText(Front(bits)) + BitText(Last(bits))
  }

  lemma ConcatAssociates(a: seq<Token>, b: seq<Token>, c: seq<Token>)
    ensures (a + b) + c == a + (b + c)
  {
  }

  lemma {:induction false} ReadBits(tokens: seq<Token>, bits: seq<Bit>, closed: seq<string>)
    requires Reads(tokens, closed, "", false)
    ensures Reads(tokens + BitsTokens(bits), closed, BitsText(bits), false)
    decreases |bits|
  {
    if bits == [] {
      assert tokens + [] == tokens;
    } else {
      ReadBits(tokens, Front(bits), closed);
      ReadBit(tokens + BitsTokens(Front(bits)), Last(bits), closed, BitsText(Front(bits)));
      ConcatAssociates(tokens, BitsTokens(Front(bits)), BitTokens(Last(bits)));
    }
  }

  /** The token stream of a document of these paragraphs. */
  function DocumentTokens(doc: seq<seq<Bit>>): seq<Token> {
    if doc == [] then [] else DocumentTokens(Front(doc)) + [Open(P)] + BitsTokens(Last(doc)) + [Close(P)]
  }

  function Texts(doc: seq<seq<Bit>>): seq<string> {
    seq(|doc|, i requires 0 <= i < |doc| => BitsText(doc[i]))
  }

  lemma ReadParagraph(tokens: seq<Token>, bits: seq<Bit>, closed: seq<string>)
    requires Reads(tokens, closed, "", false)
    ensures Reads(tokens + [Open(P)] + BitsTokens(bits) + [Close(P)], closed + [BitsText(bits)], "", false)
  {
    ReadOne(tokens, Open(P), closed, "", false);
    assert "" + "" == "";
    ReadBits(tokens + [Open(P)], bits, closed);
    ReadOne(tokens + [Open(P)] + BitsTokens(bits), Close(P), closed, BitsText(bits), false);
  }

  lemma TextsSnoc(doc: seq<seq<Bit>>)
    requires doc != []
    ensures Texts(doc) == Texts(Front(doc)) + [BitsText(Last(doc))]
  {
  }

  lemma {:induction false} ReadDocument(doc: seq<seq<Bit>>)
    ensures Reads(DocumentTokens(doc), Texts(doc), "", false)
  {
    if doc != [] {
      ReadDocument(Front(doc));
      ReadParagraph(DocumentTokens(Front(doc)), Last(doc), Texts(Front(doc)));
      TextsSnoc(doc);
    }
  }

  /** The text of a document is the newline-join of its right-trimmed non-blank paragraphs. */
  lemma DocumentText(doc: seq<seq<Bit>>)
    ensures var lines, text := Lines(Texts(doc)), JoinLines(Lines(Paragraphs(DocumentTokens(doc))));
            text == if lines == [] then "" else Join(lines, '\n')
  {
    ReadDocument(doc);
    LinesAppend(Texts(doc), [""]);
    OneLine("");
    assert Lines(Texts(doc)) + [] == Lines(Texts(doc));
    if Lines(Texts(doc)) != [] {
      JoinLinesIsJoin(Lines(Texts(doc)));
    }
  }
}
