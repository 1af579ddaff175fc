/** The string encoders of the server: quoted strings and literals. */
module Responses {
  import opened Types
  import opened Decimal
  import opened Tokenizer

  const CRLF: string := "\r\n"

  /** `bytes.replace` for a one-octet pattern. */
  function ReplaceChar(s: string, c: char, sub: string): string {
    if s == [] then [] else (if s[0] == c then sub else [s[0]]) + ReplaceChar(s[1..], c, sub)
  }

  function LiteralText(data: string): string {
    "{" + Digits(|data|) + "}" + CRLF + data
  }

  predicate NeedsLiteral(raw: string) {
    CR in raw || LF in raw || NUL in raw || exists i :: 0 <= i < |raw| && NonAscii(raw[i])
  }

  function QuotedText(raw: string): string {
    if NeedsLiteral(raw) then LiteralText(raw)
    else [QUOTE] + ReplaceChar(ReplaceChar(raw, BACKSLASH, "\\\\"), QUOTE, "\\\"") + [QUOTE]
  }

  // ----- reading a quoted string back ------------------------------------------------------------

  predicate PlainChar(c: char) { ' ' <= c <= '~' }

  predicate Plain(s: string) { forall i :: 0 <= i < |s| ==> PlainChar(s[i]) }

  function Escape(s: string): string {
    if s == [] then []
    else (if s[0] == QUOTE || s[0] == BACKSLASH then [BACKSLASH, s[0]] else [s[0]]) + Escape(s[1..])
  }

  lemma {:induction false} ReplaceConcat(s: string, t: string, c: char, sub: string)
    ensures ReplaceChar(s + t, c, sub) == ReplaceChar(s, c, sub) + ReplaceChar(t, c, sub)
  {
    if s == [] {
      assert s + t == t;
    } else {
      assert (s + t)[1..] == s[1..] + t;
      ReplaceConcat(s[1..], t, c, sub);
    }
  }

  /** The two passes of the encoder escape each character once. */
  lemma {:induction false} TwoPassesEscape(s: string)
    ensures ReplaceChar(ReplaceChar(s, BACKSLASH, "\\\\"), QUOTE, "\\\"") == Escape(s)
  {
    if s != [] {
      var head := if s[0] == BACKSLASH then "\\\\" else [s[0]];
      TwoPassesEscape(s[1..]);
      ReplaceConcat(head, ReplaceChar(s[1..], BACKSLASH, "\\\\"), QUOTE, "\\\"");
      if s[0] == BACKSLASH {
        assert head == [BACKSLASH, BACKSLASH];
        assert head[1..] == [BACKSLASH] && head[1..][1..] == [];
        assert ReplaceChar(head, QUOTE, "\\\"") == head;
      } else {
        assert head[1..] == [];
        assert ReplaceChar(head, QUOTE, "\\\"") == if s[0] == QUOTE then [BACKSLASH, QUOTE] else head;
      }
    }
  }

  lemma ReadPlain(c: char, tail: string)
    requires PlainChar(c) && c != QUOTE && c != BACKSLASH
    ensures ReadQuoted([c] + tail) == Prefixed([c], 1, ReadQuoted(tail))
  {
    assert ([c] + tail)[1..] == tail;
  }

  lemma ReadBackslashed(c: char, tail: string)
    requires c == QUOTE || c == BACKSLASH
    ensures ReadQuoted([BACKSLASH, c] + tail) == Prefixed([c], 2, ReadQuoted(tail))
  {
    assert ([BACKSLASH, c] + tail)[2..] == tail;
  }

  lemma EscapeStep(s: string, tail: string)
    requires s != ""
    ensures var first := if s[0] == QUOTE || s[0] == BACKSLASH then [BACKSLASH, s[0]] else [s[0]];
            Escape(s) + tail == first + (Escape(s[1..]) + tail) && |Escape(s)| == |first| + |Escape(s[1..])|
  {
    var first, more := if s[0] == QUOTE || s[0] == BACKSLASH then [BACKSLASH, s[0]] else [s[0]], Escape(s[1..]);
    assert Escape(s) == first + more;
    Associates(first, more, tail);
  }

  lemma Associates(s: string, t: string, u: string)
    ensures (s + t) + u == s + (t + u)
  {
  }

  lemma OnePrefix(s: string, n: nat)
    requires s != ""
    ensures forall k: nat :: Prefixed([s[0]], k, Ok(Read(s[1..], n))) == Ok(Read(s, k + n))
  {
    assert [s[0]] + s[1..] == s;
  }

  lemma ReadClosing(rest: string)
    ensures ReadQuoted(Escape([]) + ([QUOTE] + rest)) == Ok(Read([], |Escape([])| + 1))
  {
    assert Escape([]) + ([QUOTE] + rest) == [QUOTE] + rest;
  }

  lemma PlainTail(s: string)
    requires Plain(s) && s != ""
    ensures Plain(s[1..]) && PlainChar(s[0])
  {
  }

  lemma {:induction false} ReadEscaped(s: string, rest: string)
    requires Plain(s)
    ensures ReadQuoted(Escape(s) + ([QUOTE] + rest)) == Ok(Read(s, |Escape(s)| + 1))
  {
    hide *;
    if s == [] {
      ReadClosing(rest);
    } else {
      PlainTail(s);
      ReadEscaped(s[1..], rest);
      var tail := Escape(s[1..]) + ([QUOTE] + rest);
      EscapeStep(s, [QUOTE] + rest);
      if s[0] == QUOTE || s[0] == BACKSLASH {
        ReadBackslashed(s[0], tail);
      } else {
        ReadPlain(s[0], tail);
      }
      assert ReadQuoted(tail) == Ok(Read(s[1..], |Escape(s[1..])| + 1));
      OnePrefix(s, |Escape(s[1..])| + 1);
    }
  }

  lemma QuotedIs(s: string)
    requires Plain(s)
    ensures !NeedsLiteral(s) && QuotedText(s) == [QUOTE] + Escape(s) + [QUOTE]
  {
    TwoPassesEscape(s);
  }

  /** What the encoder writes for printable ASCII is read back exactly, up to its closing quote. */
  lemma QuotedReadsBack(s: string, rest: string)
    requires Plain(s)
    ensures ReadQuoted((QuotedText(s) + rest)[1..]) == Ok(Read(s, |QuotedText(s)| - 1))
  {
    QuotedIs(s);
    ReadEscaped(s, rest);
    hide *;
    Unquoted(Escape(s), rest);
  }

  lemma Unquoted(s: string, rest: string)
    ensures ([QUOTE] + s + [QUOTE] + rest)[1..] == s + ([QUOTE] + rest)
  {
  }

  /** An octet that a quoted string cannot carry: a line end, NUL, or one outside ASCII. */
  predicate Unquotable(c: char) { c == '\r' || c == '\n' || c == '\0' || c > '\U{7F}' }

  lemma {:induction false} EscapeCarries(s: string)
    ensures forall c :: c in Escape(s) ==> c in s || c == '\\'
  {
    if s != [] {
      EscapeCarries(s[1..]);
      assert forall c :: c in s[1..] ==> c in s;
    }
  }

  /** A string goes out as a literal, with its length before it, exactly if some octet cannot be quoted; between
      quotes no such octet ever reaches the wire. */
  lemma QuotedIff(raw: string)
    ensures QuotedText(raw) == "{" + Digits(|raw|) + "}" + "\r\n" + raw <==> exists c :: c in raw && Unquotable(c)
    ensures (forall c :: c in raw ==> !Unquotable(c)) ==>
              && QuotedText(raw) == "\"" + Escape(raw) + "\""
              && forall c :: c in QuotedText(raw) ==> !Unquotable(c)
  {
    hide NeedsLiteral, Digits, Escape, ReplaceChar, Unquotable;
    NeedsIff(raw);
    QuotedForm(raw);
    FormsDiffer(Escape(raw), Digits(|raw|), raw);
    if !NeedsLiteral(raw) {
      Carried(Escape(raw), raw);
    }
  }

  lemma NeedsIff(raw: string)
    ensures NeedsLiteral(raw) <==> exists c :: c in raw && Unquotable(c)
  {
    if NeedsLiteral(raw) {
      assert Unquotable(CR) && Unquotable(LF) && Unquotable(NUL);
      if i :| 0 <= i < |raw| && NonAscii(raw[i]) {
        assert raw[i] in raw && Unquotable(raw[i]);
      }
    }
    if c :| c in raw && Unquotable(c) {
      var i :| 0 <= i < |raw| && raw[i] == c;
      assert c > DEL ==> NonAscii(raw[i]);
    }
  }

  lemma QuotedForm(raw: string)
    ensures NeedsLiteral(raw) ==> QuotedText(raw) == "{" + Digits(|raw|) + "}" + "\r\n" + raw
    ensures !NeedsLiteral(raw) ==> QuotedText(raw) == "\"" + Escape(raw) + "\""
  {
    hide NeedsLiteral, Digits, Escape, ReplaceChar;
    TwoPassesEscape(raw);
  }

  lemma FormsDiffer(s: string, digits: string, raw: string)
    ensures "\"" + s + "\"" != "{" + digits + "}" + "\r\n" + raw
  {
    assert ("\"" + s + "\"")[0] != ("{" + digits + "}" + "\r\n" + raw)[0];
  }

  lemma Carried(s: string, raw: string)
    requires s == Escape(raw) && forall c :: c in raw ==> !Unquotable(c)
    ensures forall c :: c in "\"" + s + "\"" ==> !Unquotable(c)
  {
    EscapeCarries(raw);
    hide Escape;
    forall c | c in "\"" + s + "\"" ensures !Unquotable(c) {
      assert c == '"' || c in s;
    }
  }
}
