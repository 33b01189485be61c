/**
 * What `agent apply` makes of whole argument lists, on the strings themselves. Main result: two
 * keyword-first relations in a row come back as given exactly when the first list ends in a
 * `slot-N` or `mini-N` argument.
 */
module AgentStrings {
  import opened Basics
  import opened ArgText
  import opened ArgTokens
  import opened AgentApply
  import opened AgentPrint

  /** A bundle with one more relation, made without an interval. */
  function With(b: Bundle, kind: Keyword, lead: string, members: seq<string>): Bundle {
    if kind == Supervise then b.(supervise := b.supervise + [SuperviseEntry(lead, members, None)])
    else b.(balance := b.balance + [BalanceEntry(lead, members, b.mainLead, None)])
  }

  /** A keyword-first relation as it is typed. */
  function Typed(kind: Keyword, lead: string, members: seq<string>): seq<string> {
    [if kind == Supervise then "supervise" else "balance", lead] + Texts(Words(members))
  }

  function TypedTokens(kind: Keyword, lead: string, members: seq<string>): seq<Token> {
    [Kw(kind), Classify(lead)] + Words(members)
  }

  lemma TokensAppend(a: seq<string>, b: seq<string>)
    ensures Tokens(a + b) == Tokens(a) + Tokens(b)
  {
  }

  lemma TypedIsRead(kind: Keyword, lead: string, members: seq<string>)
    requires (kind == Supervise || kind == Balance) && AllSpellable(members)
    ensures Tokens(Typed(kind, lead, members)) == TypedTokens(kind, lead, members)
  {
    var name := if kind == Supervise then "supervise" else "balance";
    ByName();
    WordsName(members);
    ReadBack(Words(members));
    TokensAppend([name, lead], Texts(Words(members)));
    assert Tokens([name, lead]) == [Classify(name), Classify(lead)];
  }

  lemma TypedIsSteady(kind: Keyword, lead: string, members: seq<string>)
    requires (kind == Supervise || kind == Balance) && Plain(lead) && GoodMembers(members)
    ensures Steady(TypedTokens(kind, lead, members))
  {
    WordsName(members);
    TextOfClassify(lead);
    SteadyKeywordFirst(None, kind, Classify(lead), Words(members));
    assert PrintInterval(None) + TypedTokens(kind, lead, members) == TypedTokens(kind, lead, members);
  }

  /** Two typed relations, up to the parser's clauses. */
  lemma TwoTyped(kind: Keyword, lead: string, ids: seq<string>, kind': Keyword, lead': string, ids': seq<string>)
    requires (kind == Supervise || kind == Balance) && Plain(lead) && GoodMembers(ids)
    requires (kind' == Supervise || kind' == Balance) && Plain(lead') && GoodMembers(ids')
    ensures var ts := TypedTokens(kind, lead, ids) + TypedTokens(kind', lead', ids');
            Parse(Typed(kind, lead, ids) + Typed(kind', lead', ids')) ==
            match ParseClauses(ParseState(EMPTY_BUNDLE, None), ts)
            case Err(e) => Err(e)
            case Ok(bundle) => Ok((bundle, NO_OPTIONS))
  {
    var ts := TypedTokens(kind, lead, ids) + TypedTokens(kind', lead', ids');
    TypedIsRead(kind, lead, ids);
    TypedIsRead(kind', lead', ids');
    TokensAppend(Typed(kind, lead, ids), Typed(kind', lead', ids'));
    TypedIsSteady(kind, lead, ids);
    TypedIsSteady(kind', lead', ids');
    SteadyAppend(TypedTokens(kind, lead, ids), TypedTokens(kind', lead', ids'));
    SteadyIsKept(ts, NO_OPTIONS);
  }

  lemma OneWordLast(t: Token, ws: seq<Token>, id: string, ids: seq<string>)
    requires ws != [] && |ws| == |ids| && MemberIds(t) == [id] && AllIds(ws[..|ws| - 1]) == ids[..|ids| - 1]
    ensures var all := [t] + ws;
            all[|all| - 1] == ws[|ws| - 1] && AllIds(all[..|all| - 1]) == ([id] + ids)[..|ids|]
  {
    var all := [t] + ws;
    assert all[..|all| - 1] == [t] + ws[..|ws| - 1];
    assert all[..|all| - 1][1..] == ws[..|ws| - 1];
    assert ([id] + ids)[..|ids|] == [id] + ids[..|ids| - 1];
  }

  lemma {:induction false} WordsLast(ids: seq<string>)
    requires AllSpellable(ids) && ids != []
    ensures var ws := Words(ids); |ws| == |ids| && ws[|ws| - 1] == MemberArg(ids[|ids| - 1])
    ensures AllIds(Words(ids)[..|ids| - 1]) == ids[..|ids| - 1]
  {
    MemberArgNames(ids[0]);
    assert [ids[0]] + ids[1..] == ids;
    if |ids| > 1 {
      WordsLast(ids[1..]);
      OneWordLast(MemberArg(ids[0]), Words(ids[1..]), ids[0], ids[1..]);
    } else {
      assert Words(ids) == [MemberArg(ids[0])] + [] && ids[1..] == [];
      assert Words(ids)[..0] == [] && ids[..0] == [];
    }
  }

  lemma Regrouped(kind: Keyword, t: Token, ws: seq<Token>, kind': Keyword, t': Token, ws': seq<Token>)
    ensures ([Kw(kind), t] + ws) + ([Kw(kind'), t'] + ws')
         == [Kw(kind), t] + (ws + ([Kw(kind')] + ([t'] + ws')))
    ensures [Kw(kind')] + ([t'] + ws') == [Kw(kind'), t'] + (ws' + [])
    ensures [Kw(kind')] + ([t'] + ws') == [Kw(kind')] + ([t'] + (ws' + []))
  {
  }

  /** On tokens: a first list that ends in a seat is read whole. */
  lemma SeatListChains(s: ParseState, kind: Keyword, t: Token, ws: seq<Token>,
                       kind': Keyword, t': Token, ws': seq<Token>)
    requires (kind == Supervise || kind == Balance) && (kind' == Supervise || kind' == Balance)
    requires !t.Blank? && !t'.Blank? && ws != [] && AllWords(ws) && AllIds(ws) != [] && ws[|ws| - 1].seat
    requires AllWords(ws') && AllIds(ws') != []
    ensures ParseClauses(s, ([Kw(kind), t] + ws) + ([Kw(kind'), t'] + ws')) ==
            Ok(AddRelation(AddRelation(s, kind, Text(t), AllIds(ws)), kind', Text(t'), AllIds(ws')).bundle)
  {
    var more := [t'] + ws';
    var tail := [Kw(kind')] + more;
    var s1 := AddRelation(s, kind, Text(t), AllIds(ws));
    Regrouped(kind, t, ws, kind', t', ws');
    FirstOfTwo(s, kind, t, ws + tail);
    KeywordFirstLosesLastMember(ws, kind', more);
    ParseFirst(s, [Kw(kind), t] + (ws + tail), s1, tail);
    ParseKeywordFirst(s1, kind', t', ws', []);
  }

  lemma SeatArgument(id: string)
    requires SeatSpelling(id)
    ensures MemberArg(id) == Word(id, [id], true)
  {
    SeatIsRead(id);
  }

  lemma OtherArgument(id: string)
    requires Spellable(id) && !SeatSpelling(id)
    ensures MemberArg(id).Word? && !MemberArg(id).seat
  {
    MemberArgNames(id);
    SeatIff(id);
    SeatIff(Alone(id));
    AloneIsNoSeat(id);
  }

  lemma AloneIsNoSeat(id: string)
    requires Spellable(id)
    ensures !SeatSpelling(Alone(id))
  {
    var s := Alone(id);
    SeatIdIff(s);
    if IsSeatId(s) {
      SeatIdChars(s, |s| - 1);
      SeatIdChars(s, 0);
    }
  }

  lemma MisreadDiffers(kind: Keyword, lead: string, ids: seq<string>, kind': Keyword, lead': string, ids': seq<string>,
                       last: string, led: seq<string>)
    requires (kind == Supervise || kind == Balance) && |ids| > 0
    ensures var s := ParseState(EMPTY_BUNDLE, None);
            AddRelation(AddRelation(s, kind, lead, ids[..|ids| - 1]), kind', last, led).bundle
            != With(With(EMPTY_BUNDLE, kind, lead, ids), kind', lead', ids')
  {
    var s := ParseState(EMPTY_BUNDLE, None);
    var misread := AddRelation(AddRelation(s, kind, lead, ids[..|ids| - 1]), kind', last, led).bundle;
    var meant := With(With(EMPTY_BUNDLE, kind, lead, ids), kind', lead', ids');
    assert |ids[..|ids| - 1]| != |ids|;
    if kind == Supervise {
      assert misread.supervise[0].members == ids[..|ids| - 1] && meant.supervise[0].members == ids;
    } else {
      assert misread.balance[0].balancees == ids[..|ids| - 1] && meant.balance[0].balancees == ids;
    }
  }

  lemma NotSeatMisreads(kind: Keyword, t: Token, ws: seq<Token>, ids: seq<string>,
                        kind': Keyword, t': Token, ws': seq<Token>, ids': seq<string>)
    requires (kind == Supervise || kind == Balance) && (kind' == Supervise || kind' == Balance)
    requires !t.Blank? && ids != [] && AllWords(ws) && |ws| == |ids| && !ws[|ws| - 1].seat
    requires AllIds(ws[..|ws| - 1]) == ids[..|ids| - 1] && AllWords(ws')
    requires t'.Word? && t'.ids != []
    ensures ParseClauses(ParseState(EMPTY_BUNDLE, None), ([Kw(kind), t] + ws) + ([Kw(kind'), t'] + ws'))
         != Ok(With(With(EMPTY_BUNDLE, kind, Text(t), ids), kind', Text(t'), ids'))
  {
    var s := ParseState(EMPTY_BUNDLE, None);
    var n := |ws| - 1;
    Regrouped(kind, t, ws, kind', t', ws');
    KeywordFirstMisparses(s, kind, t, ws, kind', t', ws', []);
    MisreadDiffers(kind, Text(t), ids, kind', Text(t'), ids', Text(ws[n]), t'.ids + AllIds(ws'));
    if AllIds(ws[..n]) != [] {
      MisreadParses(AddRelation(AddRelation(s, kind, Text(t), ids[..n]), kind', Text(ws[n]), t'.ids + AllIds(ws')));
    }
  }

  lemma MisreadParses(s: ParseState)
    ensures ParseClauses(s, []) == Ok(s.bundle)
  {
  }

  lemma WithIsAdd(kind: Keyword, lead: string, ids: seq<string>, kind': Keyword, lead': string, ids': seq<string>)
    ensures AddRelation(AddRelation(ParseState(EMPTY_BUNDLE, None), kind, lead, ids), kind', lead', ids').bundle
         == With(With(EMPTY_BUNDLE, kind, lead, ids), kind', lead', ids')
  {
  }

  lemma ChainsOnTokens(kind: Keyword, t: Token, ws: seq<Token>, ids: seq<string>,
                       kind': Keyword, t': Token, ws': seq<Token>, ids': seq<string>)
    requires (kind == Supervise || kind == Balance) && (kind' == Supervise || kind' == Balance)
    requires !t.Blank? && ids != [] && AllWords(ws) && |ws| == |ids| && AllIds(ws) == ids
    requires AllIds(ws[..|ws| - 1]) == ids[..|ids| - 1]
    requires t'.Word? && t'.ids != [] && AllWords(ws') && AllIds(ws') == ids' != []
    ensures ParseClauses(ParseState(EMPTY_BUNDLE, None), ([Kw(kind), t] + ws) + ([Kw(kind'), t'] + ws'))
         == Ok(With(With(EMPTY_BUNDLE, kind, Text(t), ids), kind', Text(t'), ids'))
        <==> ws[|ws| - 1].seat
  {
    if ws[|ws| - 1].seat {
      SeatListChains(ParseState(EMPTY_BUNDLE, None), kind, t, ws, kind', t', ws');
      WithIsAdd(kind, Text(t), ids, kind', Text(t'), ids');
    } else {
      NotSeatMisreads(kind, t, ws, ids, kind', t', ws', ids');
    }
  }

  lemma LastIsSeatIff(ids: seq<string>)
    requires GoodMembers(ids)
    ensures var ws := Words(ids);
            AllWords(ws) && |ws| == |ids| && AllIds(ws) == ids && AllIds(ws[..|ws| - 1]) == ids[..|ids| - 1]
            && (ws[|ws| - 1].seat <==> SeatSpelling(ids[|ids| - 1]))
  {
    var last := ids[|ids| - 1];
    WordsName(ids);
    WordsLast(ids);
    assert Spellable(last);
    if SeatSpelling(last) {
      SeatArgument(last);
    } else {
      OtherArgument(last);
    }
  }

  /**
   * Two keyword-first relations in a row come back as given exactly when the last member of the
   * first one is "slot-" or "mini-", in any letter case, with a number.
   */
  lemma ChainsIffSeat(kind: Keyword, lead: string, ids: seq<string>, kind': Keyword, lead': string, ids': seq<string>)
    requires (kind == Supervise || kind == Balance) && Plain(lead) && GoodMembers(ids)
    requires (kind' == Supervise || kind' == Balance) && GoodMembers(ids')
    requires Classify(lead').Word? && MemberIds(Classify(lead')) != []
    ensures Parse(Typed(kind, lead, ids) + Typed(kind', lead', ids'))
         == Ok((With(With(EMPTY_BUNDLE, kind, lead, ids), kind', lead', ids'), NO_OPTIONS))
        <==> SeatSpelling(ids[|ids| - 1])
  {
    TextOfClassify(lead);
    TextOfClassify(lead');
    TwoTyped(kind, lead, ids, kind', lead', ids');
    LastIsSeatIff(ids);
    WordsName(ids');
    ChainsOnTokens(kind, Classify(lead), Words(ids), ids, kind', Classify(lead'), Words(ids'), ids');
  }

  // ---------------------------------------------------------------------------
  // A list that ends in a slot
  // ---------------------------------------------------------------------------

  lemma SlotName(n: nat)
    ensures SeatSpelling("slot-" + Digits(n)) && SeatSpelling("mini-" + Digits(n))
  {
    assert SpelledIn("slot-", "slot-", "SLOT-") && SpelledIn("mini-", "mini-", "MINI-");
  }

  lemma SeatIsSpellable(s: string)
    requires SeatSpelling(s)
    ensures Spellable(s)
  {
    SeatIsRead(s);
    MembersAreSpellable(s);
    assert s in MemberList(s);
  }

  lemma WordsOfTwo(a: string, b: string, ta: Token, tb: Token)
    requires MemberArg(a) == ta && MemberArg(b) == tb
    ensures Words([a]) == [ta] && Words([a, b]) == [ta, tb]
  {
    assert [a, b][1..] == [b] && [b][1..] == [] && [a][1..] == [];
    assert Words([b]) == [tb] + [] && Words([a]) == [ta] + [];
    assert Words([a, b]) == [ta] + [tb];
  }

  lemma SeatWords(a: string, b: string)
    requires SeatSpelling(a) && SeatSpelling(b)
    ensures Texts(Words([a, b])) == [a, b] && Texts(Words([a])) == [a]
  {
    SeatArgument(a);
    SeatArgument(b);
    WordsOfTwo(a, b, Word(a, [a], true), Word(b, [b], true));
  }

  lemma SeatMembers(a: string, b: string)
    requires SeatSpelling(a) && SeatSpelling(b)
    ensures GoodMembers([a, b]) && GoodMembers([a])
  {
    SeatIsSpellable(a);
    SeatIsSpellable(b);
  }

  lemma SeatsTyped(lead: string, a: string, b: string, c: string, d: string)
    requires SeatSpelling(a) && SeatSpelling(b) && SeatSpelling(d)
    ensures ["supervise", lead, a, b, "balance", c, d] == Typed(Supervise, lead, [a, b]) + Typed(Balance, c, [d])
  {
    SeatWords(a, b);
    SeatWords(d, d);
  }

  lemma SeatsChain(lead: string, a: string, b: string, c: string, d: string)
    requires Plain(lead) && SeatSpelling(a) && SeatSpelling(b) && SeatSpelling(c) && SeatSpelling(d)
    ensures Parse(["supervise", lead, a, b, "balance", c, d])
         == Ok((With(With(EMPTY_BUNDLE, Supervise, lead, [a, b]), Balance, c, [d]), NO_OPTIONS))
  {
    SeatsTyped(lead, a, b, c, d);
    SeatMembers(a, b);
    SeatMembers(d, d);
    SeatIsRead(c);
    ChainsIffSeat(Supervise, lead, [a, b], Balance, c, [d]);
  }

  lemma SlotsMean(lead: string, a: string, b: string, c: string, d: string)
    ensures With(With(EMPTY_BUNDLE, Supervise, lead, [a, b]), Balance, c, [d])
         == Bundle("manager", [SuperviseEntry(lead, [a, b], None)], [BalanceEntry(c, [d], "manager", None)], [], [])
  {
  }

  /** For all numbers: supervise <lead> slot-1 slot-2 balance slot-3 slot-4. */
  lemma SlotsChain(lead: string, n1: nat, n2: nat, n3: nat, n4: nat)
    requires Plain(lead)
    ensures var (a, b) := ("slot-" + Digits(n1), "slot-" + Digits(n2));
            var (c, d) := ("slot-" + Digits(n3), "slot-" + Digits(n4));
            Parse(["supervise", lead, a, b, "balance", c, d])
            == Ok((Bundle("manager", [SuperviseEntry(lead, [a, b], None)],
                          [BalanceEntry(c, [d], "manager", None)], [], []), NO_OPTIONS))
  {
    SlotName(n1);
    SlotName(n2);
    SlotName(n3);
    SlotName(n4);
    var a, b, c, d := "slot-" + Digits(n1), "slot-" + Digits(n2), "slot-" + Digits(n3), "slot-" + Digits(n4);
    SeatsChain(lead, a, b, c, d);
    SlotsMean(lead, a, b, c, d);
  }

  // ---------------------------------------------------------------------------
  // Instruction words
  // ---------------------------------------------------------------------------

  lemma {:induction false} JoinedIsJoin(ws: seq<Token>)
    ensures Joined(ws) == JoinWith(Texts(ws), ' ')
  {
    if |ws| > 1 {
      JoinedIsJoin(ws[1..]);
      assert Texts(ws)[1..] == Texts(ws[1..]);
    }
  }

  lemma {:induction false} CollectTexts(ws: seq<Token>)
    requires AllWords(ws)
    ensures CollectText(ws) == (ws, [])
  {
    if ws != [] {
      CollectTexts(ws[1..]);
      assert [ws[0]] + ws[1..] == ws;
    }
  }

  lemma InstructionOnTokens(mark: Token, ws: seq<Token>, text: string)
    requires mark.Instruction? && AllWords(ws) && text == Trim(JoinWith(Texts(ws), ' ')) && text != ""
    ensures ParseTokens([mark] + ws)
         == Ok((EMPTY_BUNDLE.(instructions := [InstructionEntry(mark.index, text)]), NO_OPTIONS))
  {
    var ts := [mark] + ws;
    var after := EMPTY_BUNDLE.(instructions := [InstructionEntry(mark.index, text)]);
    WordsAreSteady(ws);
    SteadySingle(mark, ws);
    SteadyIsKept(ts, NO_OPTIONS);
    JoinedIsJoin(ws);
    CollectTexts(ws);
    assert ts[1..] == ws && [] + [InstructionEntry(mark.index, text)] == [InstructionEntry(mark.index, text)];
    ParseFirst(ParseState(EMPTY_BUNDLE, None), ts, ParseState(after, None), []);
  }

  /** The words behind an instruction mark are joined by single blanks and trimmed. */
  lemma InstructionWords(n: nat, mark: string, words: seq<string>)
    requires mark == MARK + Digits(n) + "]" && AllWords(Tokens(words)) && Trim(JoinWith(words, ' ')) != ""
    ensures Parse([mark] + words)
         == Ok((EMPTY_BUNDLE.(instructions := [InstructionEntry(n, Trim(JoinWith(words, ' ')))]), NO_OPTIONS))
  {
    TokensAppend([mark], words);
    TokensAreRead(words);
    InstructionArgReads(n);
    assert Tokens([mark]) == [InstructionArg(n)];
    InstructionOnTokens(InstructionArg(n), Tokens(words), Trim(JoinWith(words, ' ')));
  }
}
