/** What each search key asks, from the word a client writes to the answer about one item. */
module SearchKeys {
  import opened Types
  import opened Decimal
  import opened Tokenizer
  import opened SequenceSets
  import opened Parser
  import opened Search
  import opened SearchMeaning
  import opened SetGrammar

  /** The tokens `ts` are one whole key, and asked of `x` it answers `answer`; `None` is a lookup that failed. */
  predicate Asks(lib: Lib, ts: seq<Token>, x: Context, answer: Option<bool>) {
    match ParseKey(lib, ts)
    case Err(_) => false
    case Ok(k) => k.rest == [] && Evaluate(k.crit, x) == answer
  }

  lemma WordAsks(lib: Lib, word: string, ts: seq<Token>, key: Key)
    requires KeyOf(Upper(word)) == key && !key.KNot? && !key.KOr?
    ensures ParseKey(lib, [Atom(word)] + ts) == ParseLeaf(lib, key, Atom(word), ts)
  {
    KeyStep(lib, word, ts);
  }

  lemma CapitalWord(word: string)
    requires UpperCase(word)
    ensures Upper(word) == word
  {
    UpperKeeps(word);
  }

  // ----- keys without an argument ---------------------------------------------------------------------------

  lemma PlainKeys()
    ensures KeyOf("ALL") == KAll && KeyOf("OLD") == KAll && KeyOf("NEW") == KNothing && KeyOf("RECENT") == KNothing
  {
    hide FLAG_KEYS;
    FlagNoWord("ALL");
    FlagNoWord("OLD");
    FlagNoWord("NEW");
    FlagNoWord("RECENT");
  }

  lemma PlainWords()
    ensures UpperCase("ALL") && UpperCase("OLD") && UpperCase("NEW") && UpperCase("RECENT")
  {
  }

  /** ALL and OLD are asked of every item with success; NEW and RECENT of none, because nothing is recent. */
  lemma PlainKeysMean(lib: Lib, x: Context)
    ensures Asks(lib, [Atom("ALL")], x, Some(true)) && Asks(lib, [Atom("OLD")], x, Some(true))
    ensures Asks(lib, [Atom("NEW")], x, Some(false)) && Asks(lib, [Atom("RECENT")], x, Some(false))
  {
    hide *;
    PlainKeys();
    PlainWords();
    PlainKeyAsks(lib, "ALL", x);
    PlainKeyAsks(lib, "OLD", x);
    PlainKeyAsks(lib, "NEW", x);
    PlainKeyAsks(lib, "RECENT", x);
  }

  lemma PlainKeyAsks(lib: Lib, word: string, x: Context)
    requires UpperCase(word) && (KeyOf(word) == KAll || KeyOf(word) == KNothing)
    ensures KeyOf(word) == KAll ==> Asks(lib, [Atom(word)], x, Some(true))
    ensures KeyOf(word) == KNothing ==> Asks(lib, [Atom(word)], x, Some(false))
  {
    hide KeyOf, UpperCase, Upper, ParseKey;
    CapitalWord(word);
    WordAsks(lib, word, [], KeyOf(word));
    assert [Atom(word)] + [] == [Atom(word)];
  }

  /** A flag key asks whether the flag is set, and its negation whether it is not. */
  lemma FlagKeysMean(lib: Lib, x: Context)
    ensures Asks(lib, [Atom("SEEN")], x, Some(Seen in x.flags))
    ensures Asks(lib, [Atom("UNSEEN")], x, Some(Seen !in x.flags))
    ensures Asks(lib, [Atom("ANSWERED")], x, Some(Answered in x.flags))
    ensures Asks(lib, [Atom("UNANSWERED")], x, Some(Answered !in x.flags))
    ensures Asks(lib, [Atom("FLAGGED")], x, Some(Flagged in x.flags))
    ensures Asks(lib, [Atom("UNFLAGGED")], x, Some(Flagged !in x.flags))
    ensures Asks(lib, [Atom("DELETED")], x, Some(Deleted in x.flags))
    ensures Asks(lib, [Atom("UNDELETED")], x, Some(Deleted !in x.flags))
    ensures Asks(lib, [Atom("DRAFT")], x, Some(Draft in x.flags))
    ensures Asks(lib, [Atom("UNDRAFT")], x, Some(Draft !in x.flags))
  {
    hide Asks;
    FlagKeyAsks(lib, x, Seen);
    FlagKeyAsks(lib, x, Answered);
    FlagKeyAsks(lib, x, Flagged);
    FlagKeyAsks(lib, x, Deleted);
    FlagKeyAsks(lib, x, Draft);
  }

  lemma FlagKeyAsks(lib: Lib, x: Context, f: Flag)
    ensures Asks(lib, [Atom(NameOf(KFlag(f, true)))], x, Some(f in x.flags))
    ensures Asks(lib, [Atom(NameOf(KFlag(f, false)))], x, Some(f !in x.flags))
  {
    hide KeyOf, Upper, ParseKey, NameOf;
    OneFlagKeyAsks(lib, x, f, true);
    OneFlagKeyAsks(lib, x, f, false);
  }

  lemma OneFlagKeyAsks(lib: Lib, x: Context, f: Flag, wanted: bool)
    ensures Asks(lib, [Atom(NameOf(KFlag(f, wanted)))], x, Some((f in x.flags) == wanted))
  {
    hide KeyOf, Upper, ParseKey, NameOf;
    var key := KFlag(f, wanted);
    NamesReadBack(key);
    WordAsks(lib, NameOf(key), [], key);
    assert [Atom(NameOf(key))] + [] == [Atom(NameOf(key))];
  }

  // ----- keys with an argument --------------------------------------------------------------------------------

  /** A key word with one argument token. */
  lemma OneArgument(lib: Lib, key: Key, arg: Token)
    requires key.KKeyword? || key.KDate? || key.KSize? || key.KText? || key.KUid?
    ensures ParseKey(lib, [Atom(NameOf(key)), arg]) == ParseLeaf(lib, key, Atom(NameOf(key)), [arg])
  {
    hide KeyOf, Upper, ParseKey, NameOf, ParseLeaf;
    NamesReadBack(key);
    WordAsks(lib, NameOf(key), [arg], key);
    assert [Atom(NameOf(key))] + [arg] == [Atom(NameOf(key)), arg];
  }

  /** BEFORE, ON and SINCE compare the day an item arrived with the day written. */
  lemma DateKeysMean(lib: Lib, arg: Token, d: int, x: Context)
    requires DateOf(lib, arg) == Ok(d)
    ensures Asks(lib, [Atom("BEFORE"), arg], x, Some(x.day < d))
    ensures Asks(lib, [Atom("ON"), arg], x, Some(x.day == d))
    ensures Asks(lib, [Atom("SINCE"), arg], x, Some(x.day >= d))
  {
    hide DateOf, Asks, Digits;
    ArrivalAsks(lib, arg, d, x, Earlier, x.day < d);
    ArrivalAsks(lib, arg, d, x, On, x.day == d);
    ArrivalAsks(lib, arg, d, x, Since, x.day >= d);
  }

  lemma ArrivalAsks(lib: Lib, arg: Token, d: int, x: Context, at: When, answer: bool)
    requires DateOf(lib, arg) == Ok(d)
    requires answer == match at case Earlier => x.day < d case On => x.day == d case Since => x.day >= d
    ensures Asks(lib, [Atom(NameOf(KDate(false, at))), arg], x, Some(answer))
  {
    hide DateOf, NameOf, ParseKey, KeyOf, Select;
    OneArgument(lib, KDate(false, at), arg);
  }

  /** SENTBEFORE, SENTON and SENTSINCE compare the day in the Date header; an item without one never matches. */
  lemma SentKeysMean(lib: Lib, arg: Token, d: int, x: Context, t: Content)
    requires DateOf(lib, arg) == Ok(d) && x.content == Some(t)
    ensures Asks(lib, [Atom("SENTBEFORE"), arg], x, Some(t.sent.Some? && t.sent.value < d))
    ensures Asks(lib, [Atom("SENTON"), arg], x, Some(t.sent.Some? && t.sent.value == d))
    ensures Asks(lib, [Atom("SENTSINCE"), arg], x, Some(t.sent.Some? && t.sent.value >= d))
  {
    hide DateOf, Asks, Digits;
    SentAsks(lib, arg, d, x, t, Earlier, t.sent.Some? && t.sent.value < d);
    SentAsks(lib, arg, d, x, t, On, t.sent.Some? && t.sent.value == d);
    SentAsks(lib, arg, d, x, t, Since, t.sent.Some? && t.sent.value >= d);
  }

  lemma SentAsks(lib: Lib, arg: Token, d: int, x: Context, t: Content, at: When, answer: bool)
    requires DateOf(lib, arg) == Ok(d) && x.content == Some(t)
    requires answer ==
             (t.sent.Some?
              && match at case Earlier => t.sent.value < d case On => t.sent.value == d case Since => t.sent.value >= d)
    ensures Asks(lib, [Atom(NameOf(KDate(true, at))), arg], x, Some(answer))
  {
    hide DateOf, NameOf, ParseKey, KeyOf, Select;
    OneArgument(lib, KDate(true, at), arg);
  }

  /** LARGER and SMALLER exclude the size itself, and fail when the size cannot be had. */
  lemma SizeKeysMean(lib: Lib, n: nat, x: Context)
    ensures Asks(lib, [Atom("LARGER"), Atom(Digits(n))], x, if x.size.None? then None else Some(x.size.value > n))
    ensures Asks(lib, [Atom("SMALLER"), Atom(Digits(n))], x, if x.size.None? then None else Some(x.size.value < n))
  {
    hide Asks, NumberOf, Digits;
    NumberReadsBack(n);
    SizeAsks(lib, Atom(Digits(n)), n, x, true);
    SizeAsks(lib, Atom(Digits(n)), n, x, false);
  }

  lemma NumberReadsBack(n: nat)
    ensures NumberOf(Atom(Digits(n))) == Ok(n)
  {
    ParseUndoesDigits(n);
  }

  lemma SizeAsks(lib: Lib, arg: Token, n: nat, x: Context, larger: bool)
    requires NumberOf(arg) == Ok(n)
    ensures Asks(lib, [Atom(NameOf(KSize(larger))), arg], x,
                 if x.size.None? then None else Some(if larger then x.size.value > n else x.size.value < n))
  {
    hide NumberOf, NameOf, ParseKey;
    OneArgument(lib, KSize(larger), arg);
  }

  /** KEYWORD asks for a label, as written. */
  lemma KeywordKeysMean(lib: Lib, arg: Token, tag: string, x: Context)
    requires TextOf(lib, arg) == Ok(tag)
    ensures Asks(lib, [Atom("KEYWORD"), arg], x, Some(tag in x.labels))
    ensures Asks(lib, [Atom("UNKEYWORD"), arg], x, Some(tag !in x.labels))
  {
    hide TextOf, Asks, Digits;
    KeywordAsks(lib, arg, tag, x, true);
    KeywordAsks(lib, arg, tag, x, false);
  }

  lemma KeywordAsks(lib: Lib, arg: Token, tag: string, x: Context, wanted: bool)
    requires TextOf(lib, arg) == Ok(tag)
    ensures Asks(lib, [Atom(NameOf(KKeyword(wanted))), arg], x, Some((tag in x.labels) == wanted))
  {
    hide TextOf, NameOf, ParseKey;
    OneArgument(lib, KKeyword(wanted), arg);
  }

  /** HEADER looks for a text in the fields of one name, and without a text for a field of that name. */
  lemma HeaderKeyMeans(lib: Lib, name: Token, arg: Token, field: string, s: string, x: Context)
    requires TextOf(lib, name) == Ok(field) && TextOf(lib, arg) == Ok(s)
    ensures Asks(lib, [Atom("HEADER"), name, arg], x,
                 match x.content
                 case None => None
                 case Some(t) => Some(if lib.fold(s) == "" then t.named(field) else t.header(field, lib.fold(s))))
  {
    hide TextOf, NameOf, ParseKey, ParseLeaf, KeyOf, Select;
    HeaderReads(lib, name, arg);
    HeaderLeaf(lib, Atom("HEADER"), [name, arg], field, s);
  }

  lemma HeaderLeaf(lib: Lib, key: Token, ts: seq<Token>, field: string, s: string)
    requires |ts| == 2 && TextOf(lib, ts[0]) == Ok(field) && TextOf(lib, ts[1]) == Ok(s)
    ensures ParseLeaf(lib, KHeader, key, ts) == Ok(Parsed(Header(field, lib.fold(s)), []))
  {
    hide TextOf, SetOf, DateOf, NumberOf;
    assert ts[2..] == [];
  }

  lemma HeaderReads(lib: Lib, name: Token, arg: Token)
    ensures ParseKey(lib, [Atom("HEADER"), name, arg]) == ParseLeaf(lib, KHeader, Atom("HEADER"), [name, arg])
  {
    hide KeyOf, Upper, ParseKey, ParseLeaf;
    NamesReadBack(KHeader);
    WordAsks(lib, NameOf(KHeader), [name, arg], KHeader);
    assert [Atom("HEADER")] + [name, arg] == [Atom("HEADER"), name, arg];
  }

  /** UID asks for the UID and a set alone for the position, each among those of the session. */
  lemma SetKeysMean(lib: Lib, text: string, elems: seq<Elem>, x: Context)
    requires SetWritten(text, elems) && PlainSet(elems)
    ensures Asks(lib, [Atom("UID"), Atom(text)], x,
                 Some(x.uid in x.uids && InSet(elems, x.uids[|x.uids|-1], x.uid)))
    ensures Asks(lib, [Atom(text)], x,
                 Some(x.position in x.positions && InSet(elems, x.positions[|x.positions|-1], x.position)))
  {
    hide Asks, InSet, PlainSet, SetWritten;
    UidAsks(lib, text, elems, x);
    PositionAsks(lib, text, elems, x);
  }

  // A written set is recognised as one.

  lemma NumLooksSo(t: string, x: Num)
    requires NumWritten(t, x)
    ensures LooksLikeSet(t)
  {
    hide ParseDigits;
    if x.N? {
      assert IsDigit(t[0]);
    }
  }

  lemma ElemLooksSo(t: string, e: Elem)
    requires ElemWritten(t, e)
    ensures LooksLikeSet(t)
  {
    hide NumWritten;
    match e
    case One(x) => NumLooksSo(t, x);
    case Span(a, b) =>
      var l, r :| SpanWritten(t, l, r, a, b);
      NumLooksSo(l, a);
      NumLooksSo(r, b);
      forall i | 0 <= i < |t| ensures SetChar(t[i]) {
        assert t[i] == if i < |l| then l[i] else if i == |l| then ':' else r[i - |l| - 1];
      }
  }

  lemma SetWord(text: string, elems: seq<Elem>)
    requires SetWritten(text, elems)
    ensures KeyOf(Upper(text)) == KSet
  {
    hide LooksLikeSet, Join, ElemWritten, KeyOf, Upper;
    var parts :| PartsWritten(parts, elems) && text == Join(parts, ',');
    forall i | 0 <= i < |parts| ensures LooksLikeSet(parts[i]) {
      ElemLooksSo(parts[i], elems[i]);
    }
    JoinChars(parts);
    NoKeyLooksLikeSet(text);
  }

  lemma Chooses(text: string, elems: seq<Elem>, numbers: seq<nat>, n: nat)
    requires SetWritten(text, elems) && PlainSet(elems)
    ensures SetOf(Atom(text)).Ok?
    ensures n in Select(SetOf(Atom(text)).value, numbers) <==> n in numbers && InSet(elems, numbers[|numbers|-1], n)
  {
    hide ParseSequenceSet, InSet, PlainSet, SetWritten, Select, Keep;
    WrittenSetSelects(text, elems, numbers);
    InKeep(numbers, Denoted(elems, numbers), n);
  }

  lemma UidAsks(lib: Lib, text: string, elems: seq<Elem>, x: Context)
    requires SetWritten(text, elems) && PlainSet(elems)
    ensures Asks(lib, [Atom("UID"), Atom(text)], x,
                 Some(x.uid in x.uids && InSet(elems, x.uids[|x.uids|-1], x.uid)))
  {
    hide NameOf, ParseKey, KeyOf, Select, SetWritten, PlainSet, InSet, SetOf;
    OneArgument(lib, KUid, Atom(text));
    Chooses(text, elems, x.uids, x.uid);
    UidName();
  }

  lemma UidName()
    ensures NameOf(KUid) == "UID"
  {
  }

  lemma PositionAsks(lib: Lib, text: string, elems: seq<Elem>, x: Context)
    requires SetWritten(text, elems) && PlainSet(elems)
    ensures Asks(lib, [Atom(text)], x,
                 Some(x.position in x.positions && InSet(elems, x.positions[|x.positions|-1], x.position)))
  {
    hide ParseKey, KeyOf, Select, SetWritten, PlainSet, InSet, SetOf;
    SetWord(text, elems);
    WordAsks(lib, text, [], KSet);
    assert [Atom(text)] + [] == [Atom(text)];
    Chooses(text, elems, x.positions, x.position);
  }

  /** FROM, TO and SUBJECT are answered from the listing, without the content of the message; CC, BCC, BODY and
      TEXT need it. What is looked for is case-folded. */
  lemma TextKeysMean(lib: Lib, arg: Token, s: string, x: Context)
    requires TextOf(lib, arg) == Ok(s)
    ensures Asks(lib, [Atom("FROM"), arg], x, Some(x.near(From, lib.fold(s))))
    ensures Asks(lib, [Atom("TO"), arg], x, Some(x.near(To, lib.fold(s))))
    ensures Asks(lib, [Atom("SUBJECT"), arg], x, Some(x.near(Subject, lib.fold(s))))
    ensures Asks(lib, [Atom("CC"), arg], x, InContent(x, Cc, lib.fold(s)))
    ensures Asks(lib, [Atom("BCC"), arg], x, InContent(x, Bcc, lib.fold(s)))
    ensures Asks(lib, [Atom("BODY"), arg], x, InContent(x, Body, lib.fold(s)))
    ensures Asks(lib, [Atom("TEXT"), arg], x, InContent(x, Anywhere, lib.fold(s)))
  {
    hide TextOf, Asks;
    NearAsks(lib, arg, s, x, From);
    NearAsks(lib, arg, s, x, To);
    NearAsks(lib, arg, s, x, Subject);
    FarAsks(lib, arg, s, x, Cc);
    FarAsks(lib, arg, s, x, Bcc);
    FarAsks(lib, arg, s, x, Body);
    FarAsks(lib, arg, s, x, Anywhere);
  }

  /** What the content says, if it can be had. */
  function InContent(x: Context, area: Area, s: string): Option<bool> {
    if x.content.None? then None else Some(x.content.value.has(area, s))
  }

  lemma NearAsks(lib: Lib, arg: Token, s: string, x: Context, area: Area)
    requires TextOf(lib, arg) == Ok(s) && (area == From || area == To || area == Subject)
    ensures Asks(lib, [Atom(NameOf(KText(area))), arg], x, Some(x.near(area, lib.fold(s))))
  {
    hide TextOf, NameOf, ParseKey;
    OneArgument(lib, KText(area), arg);
  }

  lemma FarAsks(lib: Lib, arg: Token, s: string, x: Context, area: Area)
    requires TextOf(lib, arg) == Ok(s) && area != From && area != To && area != Subject
    ensures Asks(lib, [Atom(NameOf(KText(area))), arg], x, InContent(x, area, lib.fold(s)))
  {
    hide TextOf, NameOf, ParseKey;
    OneArgument(lib, KText(area), arg);
  }
}
