/**
 * Printing a bundle as `agent apply` arguments. Main results: the bundles the parser can return are
 * exactly the printable ones (`ParsedIffPrintable`), and parsing undoes printing on each of them.
 */
module AgentPrint {
  import opened Basics
  import opened ArgText
  import opened ArgTokens
  import opened AgentApply

  datatype Clause =
    | MainClause(lead: string)
    | SuperviseClause(supervise: SuperviseEntry)
    | BalanceClause(balance: BalanceEntry)
    | TrafficClause(traffic: TrafficEntry)
    | InstructionClause(instruction: InstructionEntry)

  function Words(ids: seq<string>): seq<Token> {
    if ids == [] then [] else [MemberArg(ids[0])] + Words(ids[1..])
  }

  function PrintInterval(interval: Option<string>): seq<Token> {
    match interval
    case None => []
    case Some(x) => [Kw(Interval), Classify(x)]
  }

  /** Spelled "--main": behind it the next argument is never taken for a flag. */
  predicate Dashed(s: string) {
    Classify(s) == Kw(DashMain)
  }

  predicate IntervalDashed(interval: Option<string>) {
    interval.Some? && Dashed(interval.value)
  }

  /**
   * Lead first where the lead can stand first. A lead that cannot comes behind its keyword, and a
   * neutral `--main` clause keeps the list before it from running into that keyword. A lead spelled
   * like a flag has to follow a "--main" that is itself an argument.
   */
  function RelationHead(main: string, kind: Keyword, lead: string, interval: Option<string>): seq<Token> {
    var t := Classify(lead);
    if t.Flag? && !IntervalDashed(interval) then
      PrintInterval(interval) + ([Kw(Main), Kw(DashMain)] + [t, Kw(kind)])
    else if CanLead(t) then
      PrintInterval(interval) + [t, Kw(kind)]
    else
      [Kw(DashMain), Classify(main)] + (PrintInterval(interval) + [Kw(kind), t])
  }

  function PrintRelation(main: string, kind: Keyword, lead: string, members: seq<string>, interval: Option<string>)
    : seq<Token>
  {
    RelationHead(main, kind, lead, interval) + Words(members)
  }

  /** A clause, while `main` is the main lead in force. */
  function PrintClause(main: string, c: Clause): seq<Token> {
    match c
    case MainClause(lead) => [Kw(DashMain), Classify(lead)]
    case SuperviseClause(s) => PrintRelation(main, Supervise, s.supervisor, s.members, s.interval)
    case BalanceClause(b) => PrintRelation(main, Balance, b.balanceLead, b.balancees, b.interval)
    case TrafficClause(t) => [Kw(NoInbound), Classify(t.denyInboundTo), Kw(From)] + Words(t.from)
    case InstructionClause(i) => [InstructionArg(i.index), TextArg(i.text)]
  }

  function MainAfter(main: string, c: Clause): string {
    if c.MainClause? then c.lead else main
  }

  function PrintClauses(main: string, cs: seq<Clause>): seq<Token>
    decreases |cs|
  {
    if cs == [] then [] else PrintClause(main, cs[0]) + PrintClauses(MainAfter(main, cs[0]), cs[1..])
  }

  /** What a clause adds to a bundle. */
  function AddClause(b: Bundle, c: Clause): Bundle {
    match c
    case MainClause(lead) => b.(mainLead := lead)
    case SuperviseClause(s) => b.(supervise := b.supervise + [s])
    case BalanceClause(x) => b.(balance := b.balance + [x])
    case TrafficClause(t) => b.(traffic := b.traffic + [t])
    case InstructionClause(i) => b.(instructions := b.instructions + [i])
  }

  function AddClauses(b: Bundle, cs: seq<Clause>): Bundle
    decreases |cs|
  {
    if cs == [] then b else AddClauses(AddClause(b, cs[0]), cs[1..])
  }

  predicate AllSpellable(ids: seq<string>) {
    forall k :: 0 <= k < |ids| ==> Spellable(ids[k])
  }

  predicate GoodMembers(ids: seq<string>) {
    ids != [] && AllSpellable(ids)
  }

  /** Not empty, and not taken out as a flag. */
  predicate Plain(s: string) {
    s != "" && !Classify(s).Flag?
  }

  predicate GoodInterval(interval: Option<string>) {
    interval.Some? ==> Plain(interval.value)
  }

  predicate GoodLead(main: string, lead: string, interval: Option<string>) {
    lead != "" && main != "" && (Classify(lead).Flag? ==> IntervalDashed(interval) || Dashed(main))
  }

  predicate Fits(main: string, c: Clause) {
    match c
    case MainClause(lead) => lead != ""
    case SuperviseClause(s) =>
      GoodLead(main, s.supervisor, s.interval) && GoodMembers(s.members) && GoodInterval(s.interval)
    case BalanceClause(b) =>
      && GoodLead(main, b.balanceLead, b.interval) && GoodMembers(b.balancees) && GoodInterval(b.interval)
      && b.mainLead == main
    case TrafficClause(t) => Plain(t.denyInboundTo) && GoodMembers(t.from)
    case InstructionClause(i) => i.text != "" && Trimmed(i.text)
  }

  predicate Printable(main: string, cs: seq<Clause>)
    decreases |cs|
  {
    cs == [] || (Fits(main, cs[0]) && Printable(MainAfter(main, cs[0]), cs[1..]))
  }

  // ---------------------------------------------------------------------------
  // Parsing one printed clause
  // ---------------------------------------------------------------------------

  lemma OneMoreWord(t: Token, id: string, ws: seq<Token>, ids: seq<string>)
    requires Read(t) && t.Word? && MemberIds(t) == [id]
    requires AllWords(ws) && AllRead(ws) && AllIds(ws) == ids
    ensures var all := [t] + ws; AllWords(all) && AllRead(all) && AllIds(all) == [id] + ids
  {
    assert ([t] + ws)[1..] == ws;
  }

  lemma {:induction false} WordsName(ids: seq<string>)
    requires AllSpellable(ids)
    ensures AllWords(Words(ids)) && AllRead(Words(ids)) && AllIds(Words(ids)) == ids
  {
    if ids != [] {
      assert Spellable(ids[0]);
      MemberArgNames(ids[0]);
      WordsName(ids[1..]);
      OneMoreWord(MemberArg(ids[0]), ids[0], Words(ids[1..]), ids[1..]);
      assert [ids[0]] + ids[1..] == ids;
    }
  }

  /** An interval in front of a relation is kept for it. */
  lemma ParseInterval(b: Bundle, interval: Option<string>, rest: seq<Token>)
    requires GoodInterval(interval)
    ensures ParseClauses(ParseState(b, None), PrintInterval(interval) + rest) ==
            ParseClauses(ParseState(b, interval), rest)
  {
    var ts := PrintInterval(interval) + rest;
    if interval.Some? {
      TextOfClassify(interval.value);
      assert ts[2..] == rest;
      ParseFirst(ParseState(b, None), ts, ParseState(b, interval), rest);
    } else {
      assert ts == rest;
    }
  }

  lemma ParseMain(s: ParseState, kind: Keyword, lead: Token, rest: seq<Token>)
    requires (kind == Main || kind == DashMain) && !lead.Blank?
    ensures ParseClauses(s, [Kw(kind), lead] + rest) ==
            ParseClauses(s.(bundle := s.bundle.(mainLead := Text(lead))), rest)
  {
    var ts := [Kw(kind), lead] + rest;
    assert ts[2..] == rest;
    ParseFirst(s, ts, s.(bundle := s.bundle.(mainLead := Text(lead))), rest);
  }

  lemma ParseLeadFirst(s: ParseState, kind: Keyword, lead: Token, ws: seq<Token>, tail: seq<Token>)
    requires (kind == Supervise || kind == Balance) && CanLead(lead)
    requires AllWords(ws) && AllIds(ws) != [] && CleanTail(tail)
    ensures ParseClauses(s, [lead, Kw(kind)] + (ws + tail)) ==
            ParseClauses(AddRelation(s, kind, Text(lead), AllIds(ws)), tail)
  {
    var ts := [lead, Kw(kind)] + (ws + tail);
    assert ts[2..] == ws + tail;
    CollectWords(ws, tail);
    ParseFirst(s, ts, AddRelation(s, kind, Text(lead), AllIds(ws)), tail);
  }

  lemma ParseKeywordFirst(s: ParseState, kind: Keyword, lead: Token, ws: seq<Token>, tail: seq<Token>)
    requires (kind == Supervise || kind == Balance) && !lead.Blank?
    requires AllWords(ws) && AllIds(ws) != [] && CleanTail(tail)
    ensures ParseClauses(s, [Kw(kind), lead] + (ws + tail)) ==
            ParseClauses(AddRelation(s, kind, Text(lead), AllIds(ws)), tail)
  {
    FirstOfTwo(s, kind, lead, ws + tail);
    CollectWords(ws, tail);
    ParseFirst(s, [Kw(kind), lead] + (ws + tail), AddRelation(s, kind, Text(lead), AllIds(ws)), tail);
  }

  lemma Regroup(a: seq<Token>, b: seq<Token>, c: seq<Token>)
    ensures (a + b) + c == a + (b + c)
  {
  }

  lemma SameMain(s: ParseState, main: string)
    requires s.bundle.mainLead == main
    ensures s.(bundle := s.bundle.(mainLead := main)) == s
  {
  }

  lemma ParsePrintedRelation(b: Bundle, kind: Keyword, lead: string, members: seq<string>, interval: Option<string>,
                             tail: seq<Token>)
    requires kind == Supervise || kind == Balance
    requires GoodLead(b.mainLead, lead, interval) && GoodMembers(members) && GoodInterval(interval) && CleanTail(tail)
    ensures ParseClauses(ParseState(b, None), PrintRelation(b.mainLead, kind, lead, members, interval) + tail) ==
            ParseClauses(AddRelation(ParseState(b, interval), kind, lead, members), tail)
  {
    var t, ws := Classify(lead), Words(members);
    var list := ws + tail;
    var s := ParseState(b, interval);
    WordsName(members);
    TextOfClassify(lead);
    TextOfClassify(b.mainLead);
    SameMain(s, b.mainLead);
    Regroup(RelationHead(b.mainLead, kind, lead, interval), ws, tail);
    if t.Flag? && !IntervalDashed(interval) {
      var at := [Kw(Main), Kw(DashMain)] + ([t, Kw(kind)] + list);
      Regroup(PrintInterval(interval), [Kw(Main), Kw(DashMain)] + [t, Kw(kind)], list);
      Regroup([Kw(Main), Kw(DashMain)], [t, Kw(kind)], list);
      ParseInterval(b, interval, at);
      ParseMain(s, Main, Kw(DashMain), [t, Kw(kind)] + list);
      ParseLeadFirst(s, kind, t, ws, tail);
    } else if CanLead(t) {
      Regroup(PrintInterval(interval), [t, Kw(kind)], list);
      ParseInterval(b, interval, [t, Kw(kind)] + list);
      ParseLeadFirst(s, kind, t, ws, tail);
    } else {
      var at := [Kw(kind), t] + list;
      Regroup([Kw(DashMain), Classify(b.mainLead)], PrintInterval(interval) + [Kw(kind), t], list);
      Regroup(PrintInterval(interval), [Kw(kind), t], list);
      ParseMain(ParseState(b, None), DashMain, Classify(b.mainLead), PrintInterval(interval) + at);
      SameMain(ParseState(b, None), b.mainLead);
      ParseInterval(b, interval, at);
      ParseKeywordFirst(s, kind, t, ws, tail);
    }
  }

  lemma ParseTraffic(b: Bundle, target: Token, ws: seq<Token>, tail: seq<Token>)
    requires !target.Blank? && AllWords(ws) && AllIds(ws) != [] && CleanTail(tail)
    ensures ParseClauses(ParseState(b, None), [Kw(NoInbound), target, Kw(From)] + (ws + tail)) ==
            ParseClauses(ParseState(b.(traffic := b.traffic + [TrafficEntry(Text(target), AllIds(ws))]), None), tail)
  {
    var ts := [Kw(NoInbound), target, Kw(From)] + (ws + tail);
    var after := b.(traffic := b.traffic + [TrafficEntry(Text(target), AllIds(ws))]);
    assert ts[3..] == ws + tail;
    CollectWords(ws, tail);
    ParseFirst(ParseState(b, None), ts, ParseState(after, None), tail);
  }

  lemma ParsePrintedTraffic(b: Bundle, e: TrafficEntry, tail: seq<Token>)
    requires Plain(e.denyInboundTo) && GoodMembers(e.from) && CleanTail(tail)
    ensures ParseClauses(ParseState(b, None), PrintClause(b.mainLead, TrafficClause(e)) + tail) ==
            ParseClauses(ParseState(AddClause(b, TrafficClause(e)), None), tail)
  {
    var target := Classify(e.denyInboundTo);
    TextOfClassify(e.denyInboundTo);
    WordsName(e.from);
    ParseTraffic(b, target, Words(e.from), tail);
    Regroup([Kw(NoInbound), target, Kw(From)], Words(e.from), tail);
  }

  lemma CollectOneText(t: Token, tail: seq<Token>)
    requires t.Word? && CleanTail(tail)
    ensures CollectText([t] + tail) == ([t], tail)
  {
    var ts := [t] + tail;
    assert ts[1..] == tail;
    assert tail != [] ==> ts[1] == tail[0];
    assert CollectText(tail) == ([], tail);
    assert [t] + [] == [t];
  }

  lemma ParseInstruction(b: Bundle, e: InstructionEntry, mark: Token, word: Token, tail: seq<Token>)
    requires mark.Instruction? && mark.index == e.index && word.Word? && CleanTail(tail)
    requires Trim(word.spelling) == e.text && e.text != ""
    ensures ParseClauses(ParseState(b, None), [mark, word] + tail) ==
            ParseClauses(ParseState(AddClause(b, InstructionClause(e)), None), tail)
  {
    var ts := [mark, word] + tail;
    assert ts[1..] == [word] + tail;
    CollectOneText(word, tail);
    assert Joined([word]) == word.spelling;
    ParseFirst(ParseState(b, None), ts, ParseState(AddClause(b, InstructionClause(e)), None), tail);
  }

  lemma PrintedText(text: string)
    requires Trimmed(text)
    ensures TextArg(text).Word? && Trim(TextArg(text).spelling) == text
  {
    TextArgReads(text);
    TrimBehindBlank(text);
    TrimOfTrimmed(text);
  }

  lemma ParsePrintedInstruction(b: Bundle, e: InstructionEntry, tail: seq<Token>)
    requires e.text != "" && Trimmed(e.text) && CleanTail(tail)
    ensures ParseClauses(ParseState(b, None), [InstructionArg(e.index), TextArg(e.text)] + tail) ==
            ParseClauses(ParseState(AddClause(b, InstructionClause(e)), None), tail)
  {
    InstructionArgReads(e.index);
    PrintedText(e.text);
    ParseInstruction(b, e, InstructionArg(e.index), TextArg(e.text), tail);
  }

  lemma ParsePrintedClause(b: Bundle, c: Clause, tail: seq<Token>)
    requires Fits(b.mainLead, c) && CleanTail(tail)
    ensures ParseClauses(ParseState(b, None), PrintClause(b.mainLead, c) + tail) ==
            ParseClauses(ParseState(AddClause(b, c), None), tail)
  {
    match c {
      case MainClause(lead) =>
        TextOfClassify(lead);
        ParseMain(ParseState(b, None), DashMain, Classify(lead), tail);
      case SuperviseClause(e) => ParsePrintedRelation(b, Supervise, e.supervisor, e.members, e.interval, tail);
      case BalanceClause(e) => ParsePrintedRelation(b, Balance, e.balanceLead, e.balancees, e.interval, tail);
      case TrafficClause(e) => ParsePrintedTraffic(b, e, tail);
      case InstructionClause(e) => ParsePrintedInstruction(b, e, tail);
    }
  }

  lemma RelationIsCleanTail(main: string, kind: Keyword, lead: string, interval: Option<string>, more: seq<Token>)
    requires kind == Supervise || kind == Balance
    ensures CleanTail(RelationHead(main, kind, lead, interval) + more)
  {
  }

  lemma ClauseIsCleanTail(main: string, c: Clause, more: seq<Token>)
    requires Fits(main, c)
    ensures CleanTail(PrintClause(main, c) + more)
  {
    match c {
      case SuperviseClause(e) =>
        Regroup(RelationHead(main, Supervise, e.supervisor, e.interval), Words(e.members), more);
        RelationIsCleanTail(main, Supervise, e.supervisor, e.interval, Words(e.members) + more);
      case BalanceClause(e) =>
        Regroup(RelationHead(main, Balance, e.balanceLead, e.interval), Words(e.balancees), more);
        RelationIsCleanTail(main, Balance, e.balanceLead, e.interval, Words(e.balancees) + more);
      case InstructionClause(e) => InstructionArgReads(e.index);
      case _ =>
    }
  }

  lemma {:induction false} PrintedIsCleanTail(main: string, cs: seq<Clause>)
    requires Printable(main, cs)
    ensures CleanTail(PrintClauses(main, cs))
  {
    if cs != [] {
      ClauseIsCleanTail(main, cs[0], PrintClauses(MainAfter(main, cs[0]), cs[1..]));
    }
  }

  /** Printed clauses, in any order and onto any bundle, are parsed as what they say. */
  lemma {:induction false} ParsePrintedClauses(b: Bundle, cs: seq<Clause>)
    requires Printable(b.mainLead, cs)
    ensures ParseClauses(ParseState(b, None), PrintClauses(b.mainLead, cs)) == Ok(AddClauses(b, cs))
    decreases |cs|
  {
    if cs != [] {
      var b' := AddClause(b, cs[0]);
      PrintedIsCleanTail(b'.mainLead, cs[1..]);
      ParsePrintedClause(b, cs[0], PrintClauses(b'.mainLead, cs[1..]));
      ParsePrintedClauses(b', cs[1..]);
    }
  }

  // ---------------------------------------------------------------------------
  // No printed argument is taken for a flag
  // ---------------------------------------------------------------------------

  /** Taking flags out leaves these arguments, and whatever follows them, as they are. */
  predicate Steady(ts: seq<Token>)
    decreases |ts|
  {
    ts == [] || (
      if ts[0] == Kw(DashMain) then |ts| >= 2 && !ts[1].Blank? && Steady(ts[2..])
      else !ts[0].Flag? && Steady(ts[1..]))
  }

  lemma {:induction false} SteadyIsKept(ts: seq<Token>, o: ApplyOptions)
    requires Steady(ts)
    ensures TakeFlags(ts, o) == (ts, o)
    decreases |ts|
  {
    if ts != [] {
      if ts[0] == Kw(DashMain) {
        SteadyIsKept(ts[2..], o);
        assert ts[..2] + ts[2..] == ts;
      } else {
        SteadyIsKept(ts[1..], o);
        assert [ts[0]] + ts[1..] == ts;
      }
    }
  }

  lemma {:induction false} SteadyAppend(a: seq<Token>, b: seq<Token>)
    requires Steady(a) && Steady(b)
    ensures Steady(a + b)
    decreases |a|
  {
    if a == [] {
      assert a + b == b;
    } else if a[0] == Kw(DashMain) {
      assert (a + b)[2..] == a[2..] + b;
      SteadyAppend(a[2..], b);
    } else {
      assert (a + b)[1..] == a[1..] + b;
      SteadyAppend(a[1..], b);
    }
  }

  lemma {:induction false} WordsAreSteady(ws: seq<Token>)
    requires AllWords(ws)
    ensures Steady(ws)
  {
    if ws != [] {
      WordsAreSteady(ws[1..]);
    }
  }

  lemma SteadySingle(t: Token, rest: seq<Token>)
    requires !t.Flag? && t != Kw(DashMain) && Steady(rest)
    ensures Steady([t] + rest)
  {
    assert ([t] + rest)[1..] == rest;
  }

  lemma SteadyPair(t: Token, rest: seq<Token>)
    requires !t.Blank? && Steady(rest)
    ensures Steady([Kw(DashMain)] + ([t] + rest))
  {
    assert ([Kw(DashMain)] + ([t] + rest))[2..] == rest;
  }

  /** Behind an interval spelled "--main" the next argument may be anything. */
  lemma SteadyInterval(interval: Option<string>, next: Token, rest: seq<Token>)
    requires GoodInterval(interval) && !next.Blank? && Steady(rest)
    requires !IntervalDashed(interval) ==> Steady([next] + rest)
    ensures Steady(PrintInterval(interval) + ([next] + rest))
  {
    match interval {
      case None =>
        assert [] + ([next] + rest) == [next] + rest;
      case Some(x) =>
        var at := [Classify(x)] + ([next] + rest);
        if Dashed(x) {
          SteadyPair(next, rest);
        } else {
          SteadySingle(Classify(x), [next] + rest);
        }
        SteadySingle(Kw(Interval), at);
        Regroup([Kw(Interval)], [Classify(x)], [next] + rest);
        assert [Kw(Interval)] + [Classify(x)] == [Kw(Interval), Classify(x)];
    }
  }

  lemma SteadyLast(t: Token)
    requires !t.Flag? && t != Kw(DashMain)
    ensures Steady([t])
  {
    SteadySingle(t, []);
    assert [t] + [] == [t];
  }

  lemma SteadyFlagLead(interval: Option<string>, t: Token, last: Token)
    requires GoodInterval(interval) && !t.Blank? && !last.Flag? && last != Kw(DashMain)
    ensures Steady(PrintInterval(interval) + ([Kw(Main), Kw(DashMain)] + [t, last]))
  {
    var shield := [Kw(DashMain)] + ([t] + [last]);
    SteadyLast(last);
    SteadyPair(t, [last]);
    SteadySingle(Kw(Main), shield);
    SteadyInterval(interval, Kw(Main), shield);
    assert [Kw(Main)] + shield == [Kw(Main), Kw(DashMain)] + [t, last];
  }

  lemma SteadyLeadFirst(interval: Option<string>, t: Token, last: Token)
    requires GoodInterval(interval) && !t.Blank? && t != Kw(DashMain) && !last.Flag? && last != Kw(DashMain)
    requires t.Flag? ==> IntervalDashed(interval)
    ensures Steady(PrintInterval(interval) + [t, last])
  {
    SteadyLast(last);
    if !t.Flag? {
      SteadySingle(t, [last]);
    }
    SteadyInterval(interval, t, [last]);
    assert [t] + [last] == [t, last];
  }

  lemma SteadyLedList(t: Token, ws: seq<Token>)
    requires !t.Flag? && ws != [] && AllWords(ws)
    ensures Steady([t] + ws)
  {
    WordsAreSteady(ws);
    if t == Kw(DashMain) {
      WordsAreSteady(ws[1..]);
      SteadyPair(ws[0], ws[1..]);
      assert [ws[0]] + ws[1..] == ws;
    } else {
      SteadySingle(t, ws);
    }
  }

  /** Keyword first, followed by at least one member. */
  lemma SteadyKeywordFirst(interval: Option<string>, kind: Keyword, t: Token, ws: seq<Token>)
    requires GoodInterval(interval) && (kind == Supervise || kind == Balance)
    requires !t.Flag? && !t.Blank? && ws != [] && AllWords(ws)
    ensures Steady(PrintInterval(interval) + ([Kw(kind), t] + ws))
  {
    SteadyLedList(t, ws);
    SteadySingle(Kw(kind), [t] + ws);
    SteadyInterval(interval, Kw(kind), [t] + ws);
    assert [Kw(kind)] + ([t] + ws) == [Kw(kind), t] + ws;
  }

  lemma SteadySeparated(main: Token, interval: Option<string>, kind: Keyword, t: Token, ws: seq<Token>)
    requires GoodInterval(interval) && (kind == Supervise || kind == Balance) && !main.Blank?
    requires !t.Flag? && !t.Blank? && ws != [] && AllWords(ws)
    ensures Steady([Kw(DashMain), main] + (PrintInterval(interval) + [Kw(kind), t]) + ws)
  {
    var list := PrintInterval(interval) + ([Kw(kind), t] + ws);
    SteadyKeywordFirst(interval, kind, t, ws);
    SteadyPair(main, list);
    assert [Kw(DashMain)] + ([main] + list) == [Kw(DashMain), main] + list;
    Regroup([Kw(DashMain), main], PrintInterval(interval) + [Kw(kind), t], ws);
    Regroup(PrintInterval(interval), [Kw(kind), t], ws);
  }

  lemma SteadyHead(head: seq<Token>, ws: seq<Token>)
    requires Steady(head) && AllWords(ws)
    ensures Steady(head + ws)
  {
    WordsAreSteady(ws);
    SteadyAppend(head, ws);
  }

  lemma RelationIsSteady(main: string, kind: Keyword, lead: string, members: seq<string>, interval: Option<string>)
    requires kind == Supervise || kind == Balance
    requires GoodLead(main, lead, interval) && GoodMembers(members) && GoodInterval(interval)
    ensures Steady(PrintRelation(main, kind, lead, members, interval))
  {
    var t, ws := Classify(lead), Words(members);
    TextOfClassify(lead);
    TextOfClassify(main);
    WordsName(members);
    if t.Flag? && !IntervalDashed(interval) {
      SteadyFlagLead(interval, t, Kw(kind));
      SteadyHead(RelationHead(main, kind, lead, interval), ws);
    } else if CanLead(t) {
      SteadyLeadFirst(interval, t, Kw(kind));
      SteadyHead(RelationHead(main, kind, lead, interval), ws);
    } else {
      SteadySeparated(Classify(main), interval, kind, t, ws);
    }
  }

  lemma SteadyTraffic(target: Token, ws: seq<Token>)
    requires !target.Flag? && !target.Blank? && AllWords(ws)
    ensures Steady([Kw(NoInbound), target, Kw(From)] + ws)
  {
    WordsAreSteady(ws);
    SteadySingle(Kw(From), ws);
    if target == Kw(DashMain) {
      SteadyPair(Kw(From), ws);
    } else {
      SteadySingle(target, [Kw(From)] + ws);
    }
    SteadySingle(Kw(NoInbound), [target] + ([Kw(From)] + ws));
    assert [Kw(NoInbound)] + ([target] + ([Kw(From)] + ws)) == [Kw(NoInbound), target, Kw(From)] + ws;
  }

  lemma SteadyTwo(a: Token, b: Token)
    requires !a.Flag? && a != Kw(DashMain) && !b.Flag? && b != Kw(DashMain)
    ensures Steady([a, b])
  {
    SteadyLast(b);
    SteadySingle(a, [b]);
    assert [a] + [b] == [a, b];
  }

  lemma ClauseIsSteady(main: string, c: Clause)
    requires Fits(main, c)
    ensures Steady(PrintClause(main, c))
  {
    match c {
      case MainClause(lead) =>
        TextOfClassify(lead);
        SteadyPair(Classify(lead), []);
        assert [Kw(DashMain)] + ([Classify(lead)] + []) == [Kw(DashMain), Classify(lead)];
      case SuperviseClause(e) => RelationIsSteady(main, Supervise, e.supervisor, e.members, e.interval);
      case BalanceClause(e) => RelationIsSteady(main, Balance, e.balanceLead, e.balancees, e.interval);
      case TrafficClause(e) =>
        TextOfClassify(e.denyInboundTo);
        WordsName(e.from);
        SteadyTraffic(Classify(e.denyInboundTo), Words(e.from));
      case InstructionClause(e) =>
        InstructionArgReads(e.index);
        TextArgReads(e.text);
        SteadyTwo(InstructionArg(e.index), TextArg(e.text));
    }
  }

  lemma {:induction false} PrintedIsSteady(main: string, cs: seq<Clause>)
    requires Printable(main, cs)
    ensures Steady(PrintClauses(main, cs))
    decreases |cs|
  {
    if cs != [] {
      ClauseIsSteady(main, cs[0]);
      PrintedIsSteady(MainAfter(main, cs[0]), cs[1..]);
      SteadyAppend(PrintClause(main, cs[0]), PrintClauses(MainAfter(main, cs[0]), cs[1..]));
    }
  }

  // ---------------------------------------------------------------------------
  // Every printed token can be written as an argument
  // ---------------------------------------------------------------------------

  lemma ReadAppend(a: seq<Token>, b: seq<Token>)
    requires AllRead(a) && AllRead(b)
    ensures AllRead(a + b)
  {
  }

  lemma ReadTwo(a: Token, b: Token)
    requires Read(a) && Read(b)
    ensures AllRead([a, b])
  {
  }

  lemma IntervalIsRead(interval: Option<string>)
    ensures AllRead(PrintInterval(interval))
  {
    if interval.Some? {
      KeywordIsRead(Interval);
      ClassifiedIsRead(interval.value);
      ReadTwo(Kw(Interval), Classify(interval.value));
    }
  }

  lemma HeadIsRead(main: string, kind: Keyword, lead: string, interval: Option<string>)
    ensures AllRead(RelationHead(main, kind, lead, interval))
  {
    var t := Classify(lead);
    ClassifiedIsRead(lead);
    ClassifiedIsRead(main);
    KeywordIsRead(kind);
    KeywordIsRead(Main);
    KeywordIsRead(DashMain);
    IntervalIsRead(interval);
    ReadTwo(t, Kw(kind));
    ReadTwo(Kw(kind), t);
    ReadTwo(Kw(Main), Kw(DashMain));
    ReadTwo(Kw(DashMain), Classify(main));
    ReadAppend([Kw(Main), Kw(DashMain)], [t, Kw(kind)]);
    if t.Flag? && !IntervalDashed(interval) {
      ReadAppend(PrintInterval(interval), [Kw(Main), Kw(DashMain)] + [t, Kw(kind)]);
    } else if CanLead(t) {
      ReadAppend(PrintInterval(interval), [t, Kw(kind)]);
    } else {
      ReadAppend(PrintInterval(interval), [Kw(kind), t]);
      ReadAppend([Kw(DashMain), Classify(main)], PrintInterval(interval) + [Kw(kind), t]);
    }
  }

  lemma RelationIsRead(main: string, kind: Keyword, lead: string, members: seq<string>, interval: Option<string>)
    requires AllSpellable(members)
    ensures AllRead(PrintRelation(main, kind, lead, members, interval))
  {
    HeadIsRead(main, kind, lead, interval);
    WordsName(members);
    ReadAppend(RelationHead(main, kind, lead, interval), Words(members));
  }

  lemma ClauseIsRead(main: string, c: Clause)
    requires Fits(main, c)
    ensures AllRead(PrintClause(main, c))
  {
    match c {
      case MainClause(lead) =>
        KeywordIsRead(DashMain);
        ClassifiedIsRead(lead);
        ReadTwo(Kw(DashMain), Classify(lead));
      case SuperviseClause(e) => RelationIsRead(main, Supervise, e.supervisor, e.members, e.interval);
      case BalanceClause(e) => RelationIsRead(main, Balance, e.balanceLead, e.balancees, e.interval);
      case TrafficClause(e) =>
        var target := Classify(e.denyInboundTo);
        KeywordIsRead(NoInbound);
        KeywordIsRead(From);
        ClassifiedIsRead(e.denyInboundTo);
        WordsName(e.from);
        ReadTwo(Kw(NoInbound), target);
        assert [Kw(NoInbound), target, Kw(From)] == [Kw(NoInbound), target] + [Kw(From)];
        ReadAppend([Kw(NoInbound), target], [Kw(From)]);
        ReadAppend([Kw(NoInbound), target, Kw(From)], Words(e.from));
      case InstructionClause(e) =>
        InstructionArgReads(e.index);
        TextArgReads(e.text);
        ReadTwo(InstructionArg(e.index), TextArg(e.text));
    }
  }

  lemma {:induction false} PrintedIsRead(main: string, cs: seq<Clause>)
    requires Printable(main, cs)
    ensures AllRead(PrintClauses(main, cs))
    decreases |cs|
  {
    if cs != [] {
      ClauseIsRead(main, cs[0]);
      PrintedIsRead(MainAfter(main, cs[0]), cs[1..]);
      ReadAppend(PrintClause(main, cs[0]), PrintClauses(MainAfter(main, cs[0]), cs[1..]));
    }
  }

  // ---------------------------------------------------------------------------
  // Whole bundles
  // ---------------------------------------------------------------------------

  /** A supervise entry does not say under which main lead it was made, so it gets one that fits it. */
  function MainFor(e: SuperviseEntry): string {
    if Classify(e.supervisor).Flag? then KeywordText(DashMain) else EMPTY_BUNDLE.mainLead
  }

  function SuperviseClauses(es: seq<SuperviseEntry>): seq<Clause> {
    if es == [] then [] else [MainClause(MainFor(es[0])), SuperviseClause(es[0])] + SuperviseClauses(es[1..])
  }

  /** Each balance entry is preceded by the main lead it was made under. */
  function BalanceClauses(es: seq<BalanceEntry>): seq<Clause> {
    if es == [] then [] else [MainClause(es[0].mainLead), BalanceClause(es[0])] + BalanceClauses(es[1..])
  }

  function TrafficClauses(es: seq<TrafficEntry>): seq<Clause> {
    if es == [] then [] else [TrafficClause(es[0])] + TrafficClauses(es[1..])
  }

  function InstructionClauses(es: seq<InstructionEntry>): seq<Clause> {
    if es == [] then [] else [InstructionClause(es[0])] + InstructionClauses(es[1..])
  }

  function BundleClauses(b: Bundle): seq<Clause> {
    SuperviseClauses(b.supervise) + (BalanceClauses(b.balance)
      + ([MainClause(b.mainLead)] + (TrafficClauses(b.traffic) + InstructionClauses(b.instructions))))
  }

  function FlagIf(present: bool, f: FlagName): seq<Token> {
    if present then [Flag(f)] else []
  }

  function PrintFlags(o: ApplyOptions): seq<Token> {
    FlagIf(o.dryRun, DryRun) + (FlagIf(o.preflight, Preflight) + FlagIf(o.assign, Assign))
  }

  function PrintTokens(b: Bundle, o: ApplyOptions): seq<Token> {
    PrintFlags(o) + PrintClauses(EMPTY_BUNDLE.mainLead, BundleClauses(b))
  }

  /** The arguments themselves. */
  function Print(b: Bundle, o: ApplyOptions): seq<string> {
    Texts(PrintTokens(b, o))
  }

  /**
   * No empty lead, list or text; spellable members; trimmed texts; no interval or traffic target
   * spelled like a flag; and a lead spelled like a flag only where a "--main" argument can shield it.
   */
  predicate PrintableBundle(b: Bundle) {
    && b.mainLead != ""
    && (forall k :: 0 <= k < |b.supervise| ==> Fits(MainFor(b.supervise[k]), SuperviseClause(b.supervise[k])))
    && (forall k :: 0 <= k < |b.balance| ==> Fits(b.balance[k].mainLead, BalanceClause(b.balance[k])))
    && (forall k :: 0 <= k < |b.traffic| ==> Fits(b.mainLead, TrafficClause(b.traffic[k])))
    && (forall k :: 0 <= k < |b.instructions| ==> Fits(b.mainLead, InstructionClause(b.instructions[k])))
  }

  /** The clauses can be printed on this bundle and make that one of it. */
  predicate Makes(b: Bundle, cs: seq<Clause>, b': Bundle) {
    Printable(b.mainLead, cs) && AddClauses(b, cs) == b'
  }

  lemma {:induction false} MakesMore(b: Bundle, xs: seq<Clause>, b1: Bundle, ys: seq<Clause>, b2: Bundle)
    requires Makes(b, xs, b1) && Makes(b1, ys, b2)
    ensures Makes(b, xs + ys, b2)
    decreases |xs|
  {
    if xs == [] {
      assert xs + ys == ys;
    } else {
      assert (xs + ys)[1..] == xs[1..] + ys;
      MakesMore(AddClause(b, xs[0]), xs[1..], b1, ys, b2);
    }
  }

  lemma MakesOne(b: Bundle, c: Clause)
    requires Fits(b.mainLead, c)
    ensures Makes(b, [c], AddClause(b, c))
  {
    assert [c][1..] == [];
  }

  lemma MakesTwo(b: Bundle, m: string, c: Clause)
    requires m != "" && Fits(m, c)
    ensures Makes(b, [MainClause(m), c], AddClause(b.(mainLead := m), c))
  {
    MakesOne(b, MainClause(m));
    MakesOne(b.(mainLead := m), c);
    MakesMore(b, [MainClause(m)], b.(mainLead := m), [c], AddClause(b.(mainLead := m), c));
    assert [MainClause(m)] + [c] == [MainClause(m), c];
  }

  lemma SuperviseAdds(b: Bundle, e: SuperviseEntry, b1: Bundle, es: seq<SuperviseEntry>, main: string)
    requires b1 == b.(supervise := b.supervise + [e], mainLead := MainFor(e))
    ensures b1.(supervise := b1.supervise + es, mainLead := main)
         == b.(supervise := b.supervise + ([e] + es), mainLead := main)
  {
    assert b.supervise + [e] + es == b.supervise + ([e] + es);
  }

  lemma SuperviseFirst(b: Bundle, e: SuperviseEntry, b1: Bundle, more: seq<Clause>, es: seq<SuperviseEntry>,
                       main: string)
    requires Fits(MainFor(e), SuperviseClause(e)) && MainFor(e) != ""
    requires b1 == b.(supervise := b.supervise + [e], mainLead := MainFor(e))
    requires Makes(b1, more, b1.(supervise := b1.supervise + es, mainLead := main))
    ensures Makes(b, [MainClause(MainFor(e)), SuperviseClause(e)] + more,
                  b.(supervise := b.supervise + ([e] + es), mainLead := main))
  {
    MakesTwo(b, MainFor(e), SuperviseClause(e));
    SuperviseAdds(b, e, b1, es, main);
    MakesMore(b, [MainClause(MainFor(e)), SuperviseClause(e)], b1, more,
              b.(supervise := b.supervise + ([e] + es), mainLead := main));
  }

  lemma {:induction false} SupervisePart(b: Bundle, es: seq<SuperviseEntry>) returns (main: string)
    requires forall k :: 0 <= k < |es| ==> Fits(MainFor(es[k]), SuperviseClause(es[k]))
    ensures Makes(b, SuperviseClauses(es), b.(supervise := b.supervise + es, mainLead := main))
    decreases |es|
  {
    main := b.mainLead;
    if es != [] {
      var b1 := b.(supervise := b.supervise + [es[0]], mainLead := MainFor(es[0]));
      main := SupervisePart(b1, es[1..]);
      SuperviseFirst(b, es[0], b1, SuperviseClauses(es[1..]), es[1..], main);
      assert [es[0]] + es[1..] == es;
    } else {
      assert b.supervise + es == b.supervise;
    }
  }

  lemma BalanceAdds(b: Bundle, e: BalanceEntry, b1: Bundle, es: seq<BalanceEntry>, main: string)
    requires b1 == b.(balance := b.balance + [e], mainLead := e.mainLead)
    ensures b1.(balance := b1.balance + es, mainLead := main) == b.(balance := b.balance + ([e] + es), mainLead := main)
  {
    assert b.balance + [e] + es == b.balance + ([e] + es);
  }

  lemma BalanceFirst(b: Bundle, e: BalanceEntry, b1: Bundle, more: seq<Clause>, es: seq<BalanceEntry>, main: string)
    requires Fits(e.mainLead, BalanceClause(e)) && e.mainLead != ""
    requires b1 == b.(balance := b.balance + [e], mainLead := e.mainLead)
    requires Makes(b1, more, b1.(balance := b1.balance + es, mainLead := main))
    ensures Makes(b, [MainClause(e.mainLead), BalanceClause(e)] + more,
                  b.(balance := b.balance + ([e] + es), mainLead := main))
  {
    MakesTwo(b, e.mainLead, BalanceClause(e));
    BalanceAdds(b, e, b1, es, main);
    MakesMore(b, [MainClause(e.mainLead), BalanceClause(e)], b1, more,
              b.(balance := b.balance + ([e] + es), mainLead := main));
  }

  lemma {:induction false} BalancePart(b: Bundle, es: seq<BalanceEntry>) returns (main: string)
    requires forall k :: 0 <= k < |es| ==> Fits(es[k].mainLead, BalanceClause(es[k]))
    ensures Makes(b, BalanceClauses(es), b.(balance := b.balance + es, mainLead := main))
    decreases |es|
  {
    main := b.mainLead;
    if es != [] {
      var b1 := b.(balance := b.balance + [es[0]], mainLead := es[0].mainLead);
      main := BalancePart(b1, es[1..]);
      BalanceFirst(b, es[0], b1, BalanceClauses(es[1..]), es[1..], main);
      assert [es[0]] + es[1..] == es;
    } else {
      assert b.balance + es == b.balance;
    }
  }

  lemma TrafficAdds(b: Bundle, e: TrafficEntry, b1: Bundle, es: seq<TrafficEntry>)
    requires b1 == b.(traffic := b.traffic + [e])
    ensures b1.(traffic := b1.traffic + es) == b.(traffic := b.traffic + ([e] + es))
  {
    assert b.traffic + [e] + es == b.traffic + ([e] + es);
  }

  lemma TrafficFirst(b: Bundle, e: TrafficEntry, b1: Bundle, more: seq<Clause>, es: seq<TrafficEntry>)
    requires Fits(b.mainLead, TrafficClause(e)) && b1 == b.(traffic := b.traffic + [e])
    requires Makes(b1, more, b1.(traffic := b1.traffic + es))
    ensures Makes(b, [TrafficClause(e)] + more, b.(traffic := b.traffic + ([e] + es)))
  {
    MakesOne(b, TrafficClause(e));
    TrafficAdds(b, e, b1, es);
    MakesMore(b, [TrafficClause(e)], b1, more, b.(traffic := b.traffic + ([e] + es)));
  }

  lemma {:induction false} TrafficPart(b: Bundle, es: seq<TrafficEntry>)
    requires forall k :: 0 <= k < |es| ==> Fits(b.mainLead, TrafficClause(es[k]))
    ensures Makes(b, TrafficClauses(es), b.(traffic := b.traffic + es))
    decreases |es|
  {
    if es != [] {
      var b1 := b.(traffic := b.traffic + [es[0]]);
      TrafficPart(b1, es[1..]);
      TrafficFirst(b, es[0], b1, TrafficClauses(es[1..]), es[1..]);
      assert [es[0]] + es[1..] == es;
    } else {
      assert b.traffic + es == b.traffic;
    }
  }

  lemma InstructionAdds(b: Bundle, e: InstructionEntry, b1: Bundle, es: seq<InstructionEntry>)
    requires b1 == b.(instructions := b.instructions + [e])
    ensures b1.(instructions := b1.instructions + es) == b.(instructions := b.instructions + ([e] + es))
  {
    assert b.instructions + [e] + es == b.instructions + ([e] + es);
  }

  lemma InstructionFirst(b: Bundle, e: InstructionEntry, b1: Bundle, more: seq<Clause>, es: seq<InstructionEntry>)
    requires Fits(b.mainLead, InstructionClause(e)) && b1 == b.(instructions := b.instructions + [e])
    requires Makes(b1, more, b1.(instructions := b1.instructions + es))
    ensures Makes(b, [InstructionClause(e)] + more, b.(instructions := b.instructions + ([e] + es)))
  {
    MakesOne(b, InstructionClause(e));
    InstructionAdds(b, e, b1, es);
    MakesMore(b, [InstructionClause(e)], b1, more, b.(instructions := b.instructions + ([e] + es)));
  }

  lemma {:induction false} InstructionPart(b: Bundle, es: seq<InstructionEntry>)
    requires forall k :: 0 <= k < |es| ==> Fits(b.mainLead, InstructionClause(es[k]))
    ensures Makes(b, InstructionClauses(es), b.(instructions := b.instructions + es))
    decreases |es|
  {
    if es != [] {
      var b1 := b.(instructions := b.instructions + [es[0]]);
      InstructionPart(b1, es[1..]);
      InstructionFirst(b, es[0], b1, InstructionClauses(es[1..]), es[1..]);
      assert [es[0]] + es[1..] == es;
    } else {
      assert b.instructions + es == b.instructions;
    }
  }

  lemma BundleClausesRebuild(b: Bundle)
    requires PrintableBundle(b)
    ensures Makes(EMPTY_BUNDLE, BundleClauses(b), b)
  {
    var b0 := EMPTY_BUNDLE;
    var m1 := SupervisePart(b0, b.supervise);
    var b1 := b0.(supervise := b.supervise, mainLead := m1);
    assert [] + b.supervise == b.supervise;
    var m2 := BalancePart(b1, b.balance);
    var b2 := b1.(balance := b.balance, mainLead := m2);
    assert [] + b.balance == b.balance;
    var b3 := b2.(mainLead := b.mainLead);
    MakesOne(b2, MainClause(b.mainLead));
    TrafficPart(b3, b.traffic);
    var b4 := b3.(traffic := b.traffic);
    assert [] + b.traffic == b.traffic;
    InstructionPart(b4, b.instructions);
    assert [] + b.instructions == b.instructions;
    var c1, c2, c3 := SuperviseClauses(b.supervise), BalanceClauses(b.balance), [MainClause(b.mainLead)];
    var c4, c5 := TrafficClauses(b.traffic), InstructionClauses(b.instructions);
    MakesMore(b3, c4, b4, c5, b);
    MakesMore(b2, c3, b3, c4 + c5, b);
    MakesMore(b1, c2, b2, c3 + (c4 + c5), b);
    MakesMore(b0, c1, b1, c2 + (c3 + (c4 + c5)), b);
  }

  lemma TakeFlagIf(present: bool, f: FlagName, ts: seq<Token>, o: ApplyOptions)
    ensures TakeFlags(FlagIf(present, f) + ts, o) == TakeFlags(ts, if present then SetFlag(o, f) else o)
  {
    if present {
      assert ([Flag(f)] + ts)[1..] == ts;
    } else {
      assert [] + ts == ts;
    }
  }

  lemma TakePrintedFlags(o: ApplyOptions, ts: seq<Token>)
    requires Steady(ts)
    ensures TakeFlags(PrintFlags(o) + ts, NO_OPTIONS) == (ts, o)
  {
    var f1, f2, f3 := FlagIf(o.dryRun, DryRun), FlagIf(o.preflight, Preflight), FlagIf(o.assign, Assign);
    var o1 := NO_OPTIONS.(dryRun := o.dryRun);
    Regroup(f1, f2 + f3, ts);
    Regroup(f2, f3, ts);
    TakeFlagIf(o.dryRun, DryRun, f2 + (f3 + ts), NO_OPTIONS);
    TakeFlagIf(o.preflight, Preflight, f3 + ts, o1);
    TakeFlagIf(o.assign, Assign, ts, o1.(preflight := o.preflight));
    SteadyIsKept(ts, o);
  }

  lemma FlagsAreRead(o: ApplyOptions)
    ensures AllRead(PrintFlags(o))
  {
    FlagIsRead(DryRun);
    FlagIsRead(Preflight);
    FlagIsRead(Assign);
    assert AllRead(FlagIf(o.dryRun, DryRun)) && AllRead(FlagIf(o.preflight, Preflight));
    assert AllRead(FlagIf(o.assign, Assign));
    ReadAppend(FlagIf(o.preflight, Preflight), FlagIf(o.assign, Assign));
    ReadAppend(FlagIf(o.dryRun, DryRun), FlagIf(o.preflight, Preflight) + FlagIf(o.assign, Assign));
  }

  /** Every printable bundle comes back from its printing, entry for entry, with its options. */
  lemma ParseUndoesPrint(b: Bundle, o: ApplyOptions)
    requires PrintableBundle(b)
    ensures Parse(Print(b, o)) == Ok((b, o))
  {
    var cs := BundleClauses(b);
    var ts := PrintClauses(EMPTY_BUNDLE.mainLead, cs);
    BundleClausesRebuild(b);
    PrintedIsSteady(EMPTY_BUNDLE.mainLead, cs);
    PrintedIsRead(EMPTY_BUNDLE.mainLead, cs);
    FlagsAreRead(o);
    ReadAppend(PrintFlags(o), ts);
    ReadBack(PrintTokens(b, o));
    TakePrintedFlags(o, ts);
    ParsePrintedClauses(EMPTY_BUNDLE, cs);
  }

  /** Behind a "--main" that is itself an argument a flag is not taken out, and can even lead. */
  lemma FlagLeadIsShielded(f: FlagName, member: Token)
    requires member.Word? && member.ids != []
    ensures ParseTokens([Kw(Interval), Kw(DashMain), Flag(f), Kw(Supervise), member]) ==
            Ok((AddRelation(ParseState(EMPTY_BUNDLE, Some(KeywordText(DashMain))), Supervise,
                            FlagText(f), member.ids).bundle, NO_OPTIONS))
  {
    var list := [Kw(Supervise)] + [member];
    var shield := [Kw(DashMain)] + ([Flag(f)] + list);
    var s := ParseState(EMPTY_BUNDLE, Some(KeywordText(DashMain)));
    SteadyLast(member);
    SteadySingle(Kw(Supervise), [member]);
    SteadyPair(Flag(f), list);
    SteadySingle(Kw(Interval), shield);
    SteadyIsKept([Kw(Interval)] + shield, NO_OPTIONS);
    assert [Kw(Interval)] + shield == [Kw(Interval), Kw(DashMain), Flag(f), Kw(Supervise), member];
    KeywordIsRead(DashMain);
    ParseInterval(EMPTY_BUNDLE, s.pending, [Flag(f)] + list);
    assert [Kw(Interval)] + shield == [Kw(Interval), Kw(DashMain)] + ([Flag(f)] + list);
    ParseOneMember(s, Flag(f), member);
  }

  lemma ParseOneMember(s: ParseState, lead: Token, member: Token)
    requires CanLead(lead) && member.Word? && member.ids != []
    ensures ParseClauses(s, [lead] + ([Kw(Supervise)] + [member])) ==
            Ok(AddRelation(s, Supervise, Text(lead), member.ids).bundle)
  {
    assert [member][1..] == [] && member.ids + [] == member.ids && AllIds([]) == [];
    assert AllIds([member]) == member.ids;
    ParseLeadFirst(s, Supervise, lead, [member], []);
    assert [member] + [] == [member];
    assert [lead] + ([Kw(Supervise)] + [member]) == [lead, Kw(Supervise)] + [member];
  }

  // ---------------------------------------------------------------------------
  // Nothing else is ever parsed
  // ---------------------------------------------------------------------------

  /** A flag is left among the arguments only behind a "--main". */
  predicate Guarded(ts: seq<Token>) {
    forall k :: 0 < k < |ts| && ts[k].Flag? ==> ts[k - 1] == Kw(DashMain)
  }

  /** The rest of a list of arguments, and what stands in front of it. */
  predicate RestOf(ts: seq<Token>, rest: seq<Token>) {
    |rest| <= |ts| && rest == ts[|ts| - |rest|..]
  }

  /** A list was taken off the front of the arguments, and its last one was no boundary. */
  predicate TakenOff(ts: seq<Token>, rest: seq<Token>) {
    RestOf(ts, rest) && (|rest| < |ts| ==> !IsClauseBoundary(ts[|ts| - |rest| - 1]))
  }

  lemma OneMoreOff(ts: seq<Token>, rest: seq<Token>)
    requires ts != [] && !IsClauseBoundary(ts[0]) && TakenOff(ts[1..], rest)
    ensures TakenOff(ts, rest) && |rest| < |ts|
  {
    var m := |ts| - |rest|;
    assert ts[1..][m - 1..] == ts[m..];
    assert m > 1 ==> ts[1..][m - 2] == ts[m - 1];
  }

  lemma NothingOff(ts: seq<Token>)
    ensures TakenOff(ts, ts)
  {
  }

  lemma SpellableAppend(a: seq<string>, b: seq<string>)
    requires AllSpellable(a) && AllSpellable(b)
    ensures AllSpellable(a + b)
  {
  }

  lemma {:induction false} CollectEnds(ts: seq<Token>, ids: seq<string>, rest: seq<Token>)
    requires AllRead(ts) && CollectAgents(ts) == (ids, rest)
    ensures TakenOff(ts, rest) && AllSpellable(ids) && (|rest| == |ts| ==> ids == [])
  {
    if StopsHere(ts) {
      NothingOff(ts);
    } else {
      var more := CollectAgents(ts[1..]).0;
      assert Read(ts[0]);
      CollectEnds(ts[1..], more, rest);
      OneMoreOff(ts, rest);
      MemberIdsSpellable(ts[0]);
      SpellableAppend(MemberIds(ts[0]), more);
    }
  }

  lemma {:induction false} TextEnds(ts: seq<Token>, words: seq<Token>, rest: seq<Token>)
    requires CollectText(ts) == (words, rest)
    ensures TakenOff(ts, rest) && (|rest| == |ts| ==> words == [])
  {
    if StopsHere(ts) {
      NothingOff(ts);
    } else {
      TextEnds(ts[1..], CollectText(ts[1..]).0, rest);
      OneMoreOff(ts, rest);
    }
  }

  /** The first argument is a flag only where a "--main" was the last interval or main lead. */
  predicate Shielded(s: ParseState, ts: seq<Token>) {
    ts != [] && ts[0].Flag? ==> IntervalDashed(s.pending) || Dashed(s.bundle.mainLead)
  }

  predicate InHand(s: ParseState, ts: seq<Token>) {
    && PrintableBundle(s.bundle) && GoodInterval(s.pending)
    && AllRead(ts) && Guarded(ts) && Shielded(s, ts)
  }

  lemma RestReady(ts: seq<Token>, rest: seq<Token>)
    requires AllRead(ts) && Guarded(ts) && RestOf(ts, rest)
    ensures AllRead(rest) && Guarded(rest)
    ensures 0 < |rest| < |ts| && rest[0].Flag? ==> ts[|ts| - |rest| - 1] == Kw(DashMain)
  {
    var m := |ts| - |rest|;
    assert forall k :: 0 <= k < |rest| ==> rest[k] == ts[m + k];
    forall k | 0 < k < |rest| && rest[k].Flag?
      ensures rest[k - 1] == Kw(DashMain)
    {
      assert ts[m + k].Flag?;
    }
  }

  predicate NoFlagFirst(ts: seq<Token>) {
    AllRead(ts) && Guarded(ts) && (ts != [] ==> !ts[0].Flag?)
  }

  /** Behind a list no flag is left to stand first. */
  lemma ListEndsShielded(list: seq<Token>, rest: seq<Token>)
    requires AllRead(list) && Guarded(list) && TakenOff(list, rest) && |rest| < |list|
    ensures NoFlagFirst(rest)
  {
    RestReady(list, rest);
  }

  lemma MembersTaken(list: seq<Token>, ids: seq<string>, rest: seq<Token>)
    requires AllRead(list) && Guarded(list) && ids != [] && CollectAgents(list) == (ids, rest)
    ensures GoodMembers(ids) && NoFlagFirst(rest)
  {
    CollectEnds(list, ids, rest);
    ListEndsShielded(list, rest);
  }

  lemma MembersCollected(list: seq<Token>)
    requires AllRead(list) && Guarded(list) && CollectAgents(list).0 != []
    ensures GoodMembers(CollectAgents(list).0) && NoFlagFirst(CollectAgents(list).1)
  {
    MembersTaken(list, CollectAgents(list).0, CollectAgents(list).1);
  }

  lemma WordsTaken(list: seq<Token>, words: seq<Token>, rest: seq<Token>)
    requires AllRead(list) && Guarded(list) && words != [] && CollectText(list) == (words, rest)
    ensures NoFlagFirst(rest)
  {
    TextEnds(list, words, rest);
    ListEndsShielded(list, rest);
  }

  lemma WordsCollected(list: seq<Token>)
    requires AllRead(list) && Guarded(list) && CollectText(list).0 != []
    ensures NoFlagFirst(CollectText(list).1)
  {
    WordsTaken(list, CollectText(list).0, CollectText(list).1);
  }

  /** Adding one entry that fits keeps the bundle printable. */
  lemma AddKeepsPrintable(b: Bundle, c: Clause)
    requires PrintableBundle(b)
    requires Fits(if c.SuperviseClause? then MainFor(c.supervise) else b.mainLead, c)
    ensures PrintableBundle(AddClause(b, c))
  {
  }

  lemma SuperviseFits(main: string, s: SuperviseEntry)
    requires Fits(main, SuperviseClause(s))
    ensures Fits(MainFor(s), SuperviseClause(s))
  {
    KeywordIsRead(DashMain);
  }

  lemma RelationKeepsInHand(s: ParseState, kind: Keyword, lead: string, ts: seq<Token>, at: nat)
    requires InHand(s, ts) && at <= |ts| && (kind == Supervise || kind == Balance)
    requires GoodLead(s.bundle.mainLead, lead, s.pending)
    requires ParseRelation(s, kind, lead, ts[at..]).Ok?
    ensures var (s', rest) := ParseRelation(s, kind, lead, ts[at..]).value; InHand(s', rest)
  {
    var members := CollectAgents(ts[at..]).0;
    RestReady(ts, ts[at..]);
    MembersCollected(ts[at..]);
    if kind == Supervise {
      var e := SuperviseEntry(lead, members, s.pending);
      SuperviseFits(s.bundle.mainLead, e);
      AddKeepsPrintable(s.bundle, SuperviseClause(e));
    } else {
      AddKeepsPrintable(s.bundle, BalanceClause(BalanceEntry(lead, members, s.bundle.mainLead, s.pending)));
    }
  }

  lemma LeadIsGood(s: ParseState, t: Token)
    requires PrintableBundle(s.bundle) && Read(t) && !t.Blank?
    requires t.Flag? ==> IntervalDashed(s.pending) || Dashed(s.bundle.mainLead)
    ensures GoodLead(s.bundle.mainLead, Text(t), s.pending)
  {
    TextOfClassify(Text(t));
  }

  /** A clause of a keyword and one argument; if that is "--main", a flag may stand behind it. */
  lemma PairKeepsInHand(ts: seq<Token>, s': ParseState)
    requires AllRead(ts) && Guarded(ts) && |ts| >= 2 && PrintableBundle(s'.bundle) && GoodInterval(s'.pending)
    requires ts[1] == Kw(DashMain) ==> IntervalDashed(s'.pending) || Dashed(s'.bundle.mainLead)
    ensures InHand(s', ts[2..])
  {
    RestReady(ts, ts[2..]);
  }

  lemma SecondIsPlain(ts: seq<Token>)
    requires AllRead(ts) && Guarded(ts) && |ts| >= 2 && ts[0] != Kw(DashMain) && !ts[1].Blank?
    ensures Plain(Text(ts[1])) && !ts[1].Flag?
  {
    assert Read(ts[1]);
    TextOfClassify(Text(ts[1]));
  }

  lemma MainKeepsPrintable(b: Bundle, lead: string)
    requires PrintableBundle(b) && lead != ""
    ensures PrintableBundle(b.(mainLead := lead))
  {
  }

  lemma MainKeepsInHand(s: ParseState, ts: seq<Token>)
    requires InHand(s, ts) && HasArgument(ts)
    ensures InHand(s.(bundle := s.bundle.(mainLead := Text(ts[1]))), ts[2..])
  {
    assert Read(ts[1]);
    TextOfClassify(Text(ts[1]));
    MainKeepsPrintable(s.bundle, Text(ts[1]));
    PairKeepsInHand(ts, s.(bundle := s.bundle.(mainLead := Text(ts[1]))));
  }

  lemma IntervalKeepsInHand(s: ParseState, ts: seq<Token>)
    requires InHand(s, ts) && HasArgument(ts) && ts[0] == Kw(Interval)
    ensures InHand(s.(pending := Some(Text(ts[1]))), ts[2..])
  {
    assert Read(ts[1]);
    SecondIsPlain(ts);
    PairKeepsInHand(ts, s.(pending := Some(Text(ts[1]))));
  }

  lemma EntryKeepsInHand(s: ParseState, c: Clause, rest: seq<Token>)
    requires PrintableBundle(s.bundle) && GoodInterval(s.pending) && (c.TrafficClause? || c.InstructionClause?)
    requires Fits(s.bundle.mainLead, c) && NoFlagFirst(rest)
    ensures InHand(s.(bundle := AddClause(s.bundle, c)), rest)
  {
    AddKeepsPrintable(s.bundle, c);
  }

  predicate TakesOne(ts: seq<Token>) {
    HasArgument(ts) && (ts[0] == Kw(DashMain) || ts[0] == Kw(Main) || ts[0] == Kw(Interval))
  }

  /** The clause is parsed, and what it leaves is still in hand. */
  predicate ClauseInHand(s: ParseState, ts: seq<Token>)
    requires ts != [] && ParseClause(s, ts).Ok?
  {
    InHand(ParseClause(s, ts).value.0, ParseClause(s, ts).value.1)
  }

  lemma OneTakenInHand(s: ParseState, ts: seq<Token>)
    requires InHand(s, ts) && TakesOne(ts)
    ensures ParseClause(s, ts).Ok? && ClauseInHand(s, ts)
  {
    if ts[0] == Kw(Interval) {
      IntervalKeepsInHand(s, ts);
    } else {
      MainKeepsInHand(s, ts);
    }
  }

  lemma RelationInHand(s: ParseState, ts: seq<Token>)
    requires InHand(s, ts) && ts != [] && !TakesOne(ts) && ParseClause(s, ts).Ok?
    requires IsLeadFirst(ts) || StartsRelation(ts[0])
    ensures ClauseInHand(s, ts)
  {
    if IsLeadFirst(ts) {
      assert Read(ts[0]);
      LeadIsGood(s, ts[0]);
      RelationKeepsInHand(s, ts[1].keyword, Text(ts[0]), ts, 2);
    } else {
      assert Read(ts[1]);
      SecondIsPlain(ts);
      LeadIsGood(s, ts[1]);
      RelationKeepsInHand(s, ts[0].keyword, Text(ts[1]), ts, 2);
    }
  }

  lemma InstructionInHand(s: ParseState, ts: seq<Token>)
    requires InHand(s, ts) && ts != [] && ts[0].Instruction? && ParseClause(s, ts).Ok?
    ensures ClauseInHand(s, ts)
  {
    var (words, rest) := CollectText(ts[1..]);
    assert Joined([]) == "" && Trim("") == "";
    assert words != [];
    RestReady(ts, ts[1..]);
    WordsCollected(ts[1..]);
    TrimIsTrimmed(Joined(words));
    EntryKeepsInHand(s, InstructionClause(InstructionEntry(ts[0].index, Trim(Joined(words)))), rest);
  }

  lemma TrafficInHand(s: ParseState, ts: seq<Token>)
    requires InHand(s, ts) && |ts| >= 3 && ts[0] == Kw(NoInbound) && ParseClause(s, ts).Ok?
    ensures ClauseInHand(s, ts)
  {
    var (from, rest) := CollectAgents(ts[3..]);
    SecondIsPlain(ts);
    RestReady(ts, ts[3..]);
    MembersCollected(ts[3..]);
    EntryKeepsInHand(s, TrafficClause(TrafficEntry(Text(ts[1]), from)), rest);
  }

  lemma OtherClauseFails(s: ParseState, ts: seq<Token>)
    requires ts != [] && !TakesOne(ts) && !ts[0].Instruction? && !IsLeadFirst(ts) && !StartsRelation(ts[0])
    requires ts[0] != Kw(NoInbound) || |ts| < 3
    ensures ParseClause(s, ts).Err?
  {
  }

  lemma ClauseKeepsInHand(s: ParseState, ts: seq<Token>)
    requires InHand(s, ts) && ts != [] && ParseClause(s, ts).Ok?
    ensures ClauseInHand(s, ts)
  {
    if TakesOne(ts) {
      OneTakenInHand(s, ts);
    } else if ts[0].Instruction? {
      InstructionInHand(s, ts);
    } else if IsLeadFirst(ts) || StartsRelation(ts[0]) {
      RelationInHand(s, ts);
    } else if ts[0] == Kw(NoInbound) && |ts| >= 3 {
      TrafficInHand(s, ts);
    } else {
      OtherClauseFails(s, ts);
    }
  }

  lemma {:induction false} ClausesKeepPrintable(s: ParseState, ts: seq<Token>)
    requires InHand(s, ts) && ParseClauses(s, ts).Ok?
    ensures PrintableBundle(ParseClauses(s, ts).value)
    decreases |ts|
  {
    if ts != [] {
      ClauseKeepsInHand(s, ts);
      var (s', rest) := ParseClause(s, ts).value;
      ClausesKeepPrintable(s', rest);
    }
  }

  lemma GuardedFront(t: Token, rest: seq<Token>)
    requires Read(t) && AllRead(rest) && Guarded(rest) && (rest != [] && rest[0].Flag? ==> t == Kw(DashMain))
    ensures AllRead([t] + rest) && Guarded([t] + rest)
  {
    var ts := [t] + rest;
    forall k | 0 < k < |ts| && ts[k].Flag?
      ensures ts[k - 1] == Kw(DashMain)
    {
      assert ts[k] == rest[k - 1];
      assert k > 1 ==> ts[k - 1] == rest[k - 2];
    }
  }

  lemma GuardedPair(t: Token, rest: seq<Token>)
    requires Read(t) && NoFlagFirst(rest)
    ensures NoFlagFirst([Kw(DashMain), t] + rest)
  {
    KeywordIsRead(DashMain);
    GuardedFront(t, rest);
    GuardedFront(Kw(DashMain), [t] + rest);
    assert [Kw(DashMain)] + ([t] + rest) == [Kw(DashMain), t] + rest;
  }

  /** Taking flags out leaves them only behind a "--main", and never in front. */
  lemma {:induction false} TakenIsGuarded(ts: seq<Token>, o: ApplyOptions)
    requires AllRead(ts)
    ensures NoFlagFirst(TakeFlags(ts, o).0)
    decreases |ts|
  {
    if ts != [] {
      assert Read(ts[0]);
      if ts[0].Flag? {
        TakenIsGuarded(ts[1..], SetFlag(o, ts[0].flag));
      } else if ts[0] == Kw(DashMain) && HasArgument(ts) {
        assert Read(ts[1]);
        TakenIsGuarded(ts[2..], o);
        GuardedPair(ts[1], TakeFlags(ts[2..], o).0);
        assert ts[..2] == [Kw(DashMain), ts[1]];
      } else {
        TakenIsGuarded(ts[1..], o);
        GuardedFront(ts[0], TakeFlags(ts[1..], o).0);
      }
    }
  }

  /** Whatever the arguments, a bundle the parser returns is printable. */
  lemma ParsedIsPrintable(args: seq<string>)
    requires Parse(args).Ok?
    ensures PrintableBundle(Parse(args).value.0)
  {
    var ts := Tokens(args);
    TokensAreRead(args);
    TakenIsGuarded(ts, NO_OPTIONS);
    ClausesKeepPrintable(ParseState(EMPTY_BUNDLE, None), TakeFlags(ts, NO_OPTIONS).0);
  }

  /** So printing what was parsed, and parsing that, gives the same again. */
  lemma ParsedComesBack(args: seq<string>)
    requires Parse(args).Ok?
    ensures var (b, o) := Parse(args).value; Parse(Print(b, o)) == Parse(args)
  {
    var (b, o) := Parse(args).value;
    ParsedIsPrintable(args);
    ParseUndoesPrint(b, o);
  }

  /** The printable bundles are exactly those some arguments are parsed as. */
  lemma ParsedIffPrintable(b: Bundle, o: ApplyOptions)
    ensures PrintableBundle(b) <==> exists args :: Parse(args) == Ok((b, o))
  {
    if PrintableBundle(b) {
      ParseUndoesPrint(b, o);
    }
    if args :| Parse(args) == Ok((b, o)) {
      ParsedIsPrintable(args);
    }
  }

  /** What the bundle schema asks: no empty lead, member, list or text. */
  predicate WellFormed(b: Bundle) {
    && b.mainLead != ""
    && (forall k :: 0 <= k < |b.supervise| ==>
          b.supervise[k].supervisor != "" && b.supervise[k].members != [] && "" !in b.supervise[k].members)
    && (forall k :: 0 <= k < |b.balance| ==>
          && b.balance[k].balanceLead != "" && b.balance[k].mainLead != ""
          && b.balance[k].balancees != [] && "" !in b.balance[k].balancees)
    && (forall k :: 0 <= k < |b.traffic| ==>
          b.traffic[k].denyInboundTo != "" && b.traffic[k].from != [] && "" !in b.traffic[k].from)
    && (forall k :: 0 <= k < |b.instructions| ==> b.instructions[k].text != "")
  }

  lemma GoodMembersNotEmpty(ids: seq<string>)
    requires GoodMembers(ids)
    ensures ids != [] && "" !in ids
  {
    assert !Spellable("");
  }

  lemma PrintableIsWellFormed(b: Bundle)
    requires PrintableBundle(b)
    ensures WellFormed(b)
  {
    forall k | 0 <= k < |b.supervise|
      ensures b.supervise[k].supervisor != "" && b.supervise[k].members != [] && "" !in b.supervise[k].members
    {
      GoodMembersNotEmpty(b.supervise[k].members);
    }
    forall k | 0 <= k < |b.balance|
      ensures && b.balance[k].balanceLead != "" && b.balance[k].mainLead != ""
              && b.balance[k].balancees != [] && "" !in b.balance[k].balancees
    {
      GoodMembersNotEmpty(b.balance[k].balancees);
    }
    forall k | 0 <= k < |b.traffic|
      ensures b.traffic[k].denyInboundTo != "" && b.traffic[k].from != [] && "" !in b.traffic[k].from
    {
      GoodMembersNotEmpty(b.traffic[k].from);
    }
  }

  /** Whatever the arguments, a bundle the parser returns satisfies the schema. */
  lemma ParsedIsWellFormed(args: seq<string>)
    requires Parse(args).Ok?
    ensures WellFormed(Parse(args).value.0)
  {
    ParsedIsPrintable(args);
    PrintableIsWellFormed(Parse(args).value.0);
  }
}
