/** Which SEARCH commands are refused: unknown words, missing or unfit arguments, charsets. */
module SearchRefusals {
  import opened Types
  import opened Decimal
  import opened Tokenizer
  import opened SequenceSets
  import opened SetGrammar
  import opened Parser
  import opened ParserErrors
  import opened Search
  import opened SearchMeaning
  import opened SearchKeys

  // ----- words ----------------------------------------------------------------------------------------------

  const PLAIN_WORDS := {"ALL", "OLD", "NEW", "RECENT", "KEYWORD", "UNKEYWORD", "UID", "NOT", "OR", "LARGER", "SMALLER",
                        "HEADER"}

  const FLAG_WORDS := {"ANSWERED", "UNANSWERED", "DELETED", "UNDELETED", "DRAFT", "UNDRAFT", "FLAGGED", "UNFLAGGED",
                       "SEEN", "UNSEEN"}

  const DATE_WORDS := {"BEFORE", "ON", "SINCE", "SENTBEFORE", "SENTON", "SENTSINCE"}

  const TEXT_WORDS := {"FROM", "TO", "SUBJECT", "CC", "BCC", "BODY", "TEXT"}

  lemma WordTables(name: string)
    ensures name in WORD_KEYS <==> name in PLAIN_WORDS
    ensures name in FLAG_KEYS <==> name in FLAG_WORDS
    ensures name in DATE_KEYS <==> name in DATE_WORDS
    ensures name in TEXT_KEYS <==> name in TEXT_WORDS
  {
  }

  /** Digits, stars, colons and commas, a digit or a star first. */
  predicate SetLike(s: string) {
    && s != "" && s[0] !in ":,"
    && forall i :: 0 <= i < |s| ==> '0' <= s[i] <= '9' || s[i] in "*:,"
  }

  lemma WordsKnown(name: string)
    ensures name in WORD_KEYS ==> WORD_KEYS[name] != KUnknown
  {
  }

  lemma FlagsKnown(name: string)
    ensures name in FLAG_KEYS ==> FLAG_KEYS[name] != KUnknown
  {
  }

  lemma DatesKnown(name: string)
    ensures name in DATE_KEYS ==> DATE_KEYS[name] != KUnknown
  {
  }

  lemma TextsKnown(name: string)
    ensures name in TEXT_KEYS ==> TEXT_KEYS[name] != KUnknown
  {
  }

  /** A name is read as unknown exactly if it is in no table and does not look like a set. */
  lemma UnknownKey(name: string)
    ensures KeyOf(name) == KUnknown <==> Unknown(name)
  {
    WordTables(name);
    WordsKnown(name);
    FlagsKnown(name);
    DatesKnown(name);
    TextsKnown(name);
    assert LooksLikeSet(name) <==> SetLike(name);
    hide LooksLikeSet, SetLike, WORD_KEYS, FLAG_KEYS, DATE_KEYS, TEXT_KEYS;
    hide PLAIN_WORDS, FLAG_WORDS, DATE_WORDS, TEXT_WORDS;
  }

  predicate Unknown(name: string) {
    name !in PLAIN_WORDS && name !in FLAG_WORDS && name !in DATE_WORDS && name !in TEXT_WORDS && !SetLike(name)
  }

  lemma UnknownLeaf(lib: Lib, key: Token, rest: seq<Token>)
    ensures ParseLeaf(lib, KUnknown, key, rest) == Err(Unsupported)
  {
  }

  /** A word is unknown, and refused, exactly if it is, in upper case, none of the thirty-five, and no set. */
  lemma UnknownIff(lib: Lib, word: string, name: string, rest: seq<Token>)
    requires InUpperCase(word, name)
    ensures KeyOf(Upper(word)) == KUnknown <==> Unknown(name)
    ensures Unknown(name) ==> ParseKey(lib, [Atom(word)] + rest) == Err(Unsupported)
  {
    hide KeyOf, Unknown, ParseKey, Upper, InUpperCase, ParseLeaf;
    UpperIff(word, name);
    UnknownKey(name);
    if Unknown(name) {
      WordAsks(lib, word, rest, KUnknown);
      UnknownLeaf(lib, Atom(word), rest);
    }
  }

  // ----- arguments ------------------------------------------------------------------------------------------

  /** What the argument of a key must be. */
  ghost predicate Fits(lib: Lib, key: Key, arg: Token) {
    if key.KUid? then arg.Atom? && exists elems :: SetWritten(arg.value, elems)
    else if key.KSize? then arg.Atom? && arg.value != "" && AllDigits(arg.value)
    else !arg.List? && lib.decode(arg.value).Some?
         && (key.KDate? ==> lib.readDate(lib.decode(arg.value).value).Some?)
  }

  /** A key with one argument is accepted exactly if the argument is there and fits. */
  lemma ArgumentIff(lib: Lib, key: Key, arg: Token)
    requires key.KKeyword? || key.KDate? || key.KSize? || key.KText? || key.KUid?
    ensures ParseKey(lib, [Atom(NameOf(key))]) == Err(Incomplete)
    ensures ParseKey(lib, [Atom(NameOf(key)), arg]).Ok? <==> Fits(lib, key, arg)
  {
    hide *;
    OneArgument(lib, key, arg);
    LeafFits(lib, key, Atom(NameOf(key)), [arg]);
    NoArgument(lib, key);
  }

  lemma NoArgument(lib: Lib, key: Key)
    requires key.KKeyword? || key.KDate? || key.KSize? || key.KText? || key.KUid?
    ensures ParseKey(lib, [Atom(NameOf(key))]) == Err(Incomplete)
  {
    hide *;
    NamesReadBack(key);
    WordAsks(lib, NameOf(key), [], key);
    assert [Atom(NameOf(key))] + [] == [Atom(NameOf(key))];
    LeafLacks(lib, key, Atom(NameOf(key)), []);
  }

  lemma LeafFits(lib: Lib, key: Key, tok: Token, ts: seq<Token>)
    requires key.KKeyword? || key.KDate? || key.KSize? || key.KText? || key.KUid?
    requires |ts| == 1
    ensures ParseLeaf(lib, key, tok, ts).Ok? <==> Fits(lib, key, ts[0])
  {
    hide ParseSequenceSet, SetWritten, ParseDigits;
    if key.KUid? && ts[0].Atom? {
      AcceptedIff(ts[0].value);
    }
  }

  lemma LeafLacks(lib: Lib, key: Key, tok: Token, ts: seq<Token>)
    requires key.KKeyword? || key.KDate? || key.KSize? || key.KText? || key.KUid?
    requires ts == []
    ensures ParseLeaf(lib, key, tok, ts) == Err(Incomplete)
  {
    hide SetOf, TextOf, DateOf, NumberOf;
  }

  /** Keys are atoms or groups, and no group is empty. */
  lemma KeysAreAtoms(lib: Lib, text: string, rest: seq<Token>)
    ensures ParseKey(lib, [Quoted(text)] + rest) == ParseKey(lib, [Literal(text)] + rest) == Err(NotAnAtom)
    ensures ParseKey(lib, [List([])] + rest) == Err(EmptyGroup)
    ensures ParseKey(lib, []) == Err(Incomplete)
  {
    hide KeyOf, ParseLeaf;
  }

  // ----- the command ----------------------------------------------------------------------------------------

  /** The keys of a command, all of them read to the last token. */
  predicate KeysAre(lib: Lib, ts: seq<Token>, c: Crit) {
    ts != [] && c.And? && ParseKeys(lib, ts) == Ok(c.cs)
  }

  predicate SaysCharset(ts: seq<Token>) {
    ts != [] && ts[0].Atom? && InUpperCase(ts[0].value, "CHARSET")
  }

  predicate KnownCharset(lib: Lib, t: Token) {
    && !t.List? && lib.decode(t.value).Some?
    && (InUpperCase(lib.decode(t.value).value, "UTF-8") || InUpperCase(lib.decode(t.value).value, "US-ASCII"))
  }

  /** A command is accepted as the conjunction of its keys exactly if it has keys that can all be read, after CHARSET
      with one of the two known charsets if it says so. */
  lemma CommandIff(lib: Lib, ts: seq<Token>, c: Crit)
    ensures ParseSearch(lib, ts) == Ok(c) <==>
            if SaysCharset(ts) then |ts| >= 2 && KnownCharset(lib, ts[1]) && KeysAre(lib, ts[2..], c)
            else KeysAre(lib, ts, c)
  {
    hide ParseKeys, Upper, InUpperCase;
    if ts != [] && ts[0].Atom? {
      UpperIff(ts[0].value, "CHARSET");
    }
    if |ts| >= 2 && !ts[1].List? && lib.decode(ts[1].value).Some? {
      UpperIff(lib.decode(ts[1].value).value, "UTF-8");
      UpperIff(lib.decode(ts[1].value).value, "US-ASCII");
    }
  }
}
