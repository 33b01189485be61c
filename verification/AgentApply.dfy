/**
 * The `agent apply` parser over classified arguments: flags, clauses with lookahead, member lists.
 * The lemmas say where the keyword-first form and bare flags are misread; printing, and parsing
 * back, is in `AgentPrint`.
 */
module AgentApply {
  import opened Basics
  import opened ArgText
  import opened ArgTokens

  datatype SuperviseEntry = SuperviseEntry(supervisor: string, members: seq<string>, interval: Option<string>)

  datatype BalanceEntry =
    BalanceEntry(balanceLead: string, balancees: seq<string>, mainLead: string, interval: Option<string>)

  datatype TrafficEntry = TrafficEntry(denyInboundTo: string, from: seq<string>)

  datatype InstructionEntry = InstructionEntry(index: nat, text: string)

  datatype Bundle = Bundle(
    mainLead: string,
    supervise: seq<SuperviseEntry>,
    balance: seq<BalanceEntry>,
    traffic: seq<TrafficEntry>,
    instructions: seq<InstructionEntry>)

  datatype ApplyOptions = ApplyOptions(dryRun: bool, preflight: bool, assign: bool)

  datatype ParseError =
    | InstructionNeedsText(index: nat)
    | NeedsLead(keyword: Keyword)
    | NeedsMembers(lead: string)
    | NeedsFrom
    | UnknownToken(token: string)

  const EMPTY_BUNDLE := Bundle("manager", [], [], [], [])

  // ---------------------------------------------------------------------------
  // Token tests
  // ---------------------------------------------------------------------------

  predicate IsClauseBoundary(t: Token) {
    t.Kw? || t.Instruction?
  }

  predicate CanLead(t: Token) {
    !t.Blank? && !IsClauseBoundary(t) && !(t.Word? && t.seat)
  }

  predicate StartsRelation(t: Token) {
    t == Kw(Supervise) || t == Kw(Balance)
  }

  /** The arguments go on with `<lead> supervise …` or `<lead> balance …`. */
  predicate IsLeadFirst(ts: seq<Token>) {
    |ts| >= 2 && CanLead(ts[0]) && StartsRelation(ts[1])
  }

  /** Collecting members or instruction words ends here. */
  predicate StopsHere(ts: seq<Token>) {
    ts == [] || ts[0].Blank? || IsClauseBoundary(ts[0]) || IsLeadFirst(ts)
  }

  function CollectAgents(ts: seq<Token>): (r: (seq<string>, seq<Token>))
    ensures |r.1| <= |ts|
  {
    if StopsHere(ts) then ([], ts)
    else
      var (ids, rest) := CollectAgents(ts[1..]);
      (MemberIds(ts[0]) + ids, rest)
  }

  function CollectText(ts: seq<Token>): (r: (seq<Token>, seq<Token>))
    ensures |r.1| <= |ts|
  {
    if StopsHere(ts) then ([], ts)
    else
      var (words, rest) := CollectText(ts[1..]);
      ([ts[0]] + words, rest)
  }

  /** Instruction words, joined by blanks and trimmed. */
  function Joined(words: seq<Token>): string {
    if words == [] then ""
    else if |words| == 1 then Text(words[0])
    else Text(words[0]) + " " + Joined(words[1..])
  }

  // ---------------------------------------------------------------------------
  // Clauses
  // ---------------------------------------------------------------------------

  /** The bundle so far and the interval waiting for the next relation. */
  datatype ParseState = ParseState(bundle: Bundle, pending: Option<string>)

  function AddSupervise(s: ParseState, lead: string, members: seq<string>): ParseState {
    ParseState(s.bundle.(supervise := s.bundle.supervise + [SuperviseEntry(lead, members, s.pending)]), None)
  }

  function AddBalance(s: ParseState, lead: string, members: seq<string>): ParseState {
    ParseState(
      s.bundle.(balance := s.bundle.balance + [BalanceEntry(lead, members, s.bundle.mainLead, s.pending)]), None)
  }

  /** A relation keyword with its lead already read; `ts` starts at the members. */
  function ParseRelation(s: ParseState, kind: Keyword, lead: string, ts: seq<Token>)
    : (r: Result<(ParseState, seq<Token>), ParseError>)
    ensures r.Ok? ==> |r.value.1| <= |ts|
  {
    var (members, rest) := CollectAgents(ts);
    if members == [] then Err(NeedsMembers(lead))
    else if kind == Supervise then Ok((AddSupervise(s, lead, members), rest))
    else Ok((AddBalance(s, lead, members), rest))
  }

  predicate HasArgument(ts: seq<Token>) {
    |ts| >= 2 && !ts[1].Blank?
  }

  /** One turn of the parser's loop: the state after the first clause, and the arguments left. */
  function ParseClause(s: ParseState, ts: seq<Token>): (r: Result<(ParseState, seq<Token>), ParseError>)
    requires ts != []
    ensures r.Ok? ==> |r.value.1| < |ts|
  {
    var word := ts[0];
    if word == Kw(DashMain) && HasArgument(ts) then
      Ok((s.(bundle := s.bundle.(mainLead := Text(ts[1]))), ts[2..]))
    else if word == Kw(Interval) && HasArgument(ts) then
      Ok((s.(pending := Some(Text(ts[1]))), ts[2..]))
    else if word == Kw(Main) && HasArgument(ts) then
      Ok((s.(bundle := s.bundle.(mainLead := Text(ts[1]))), ts[2..]))
    else if word.Instruction? then
      var (words, rest) := CollectText(ts[1..]);
      var text := Trim(Joined(words));
      if text == "" then Err(InstructionNeedsText(word.index))
      else
        var entry := InstructionEntry(word.index, text);
        Ok((s.(bundle := s.bundle.(instructions := s.bundle.instructions + [entry])), rest))
    else if IsLeadFirst(ts) then
      ParseRelation(s, ts[1].keyword, Text(word), ts[2..])
    else if StartsRelation(word) then
      if !HasArgument(ts) then Err(NeedsLead(word.keyword))
      else ParseRelation(s, word.keyword, Text(ts[1]), ts[2..])
    else if word == Kw(NoInbound) then
      if |ts| < 3 || ts[2] != Kw(From) then Err(NeedsFrom)
      else
        var (from, rest) := CollectAgents(ts[3..]);
        if ts[1].Blank? || from == [] then Err(NeedsMembers(Text(ts[1])))
        else Ok((s.(bundle := s.bundle.(traffic := s.bundle.traffic + [TrafficEntry(Text(ts[1]), from)])), rest))
    else Err(UnknownToken(Text(word)))
  }

  function ParseClauses(s: ParseState, ts: seq<Token>): Result<Bundle, ParseError>
    decreases |ts|
  {
    if ts == [] then Ok(s.bundle)
    else
      match ParseClause(s, ts)
      case Err(e) => Err(e)
      case Ok((s', rest)) => ParseClauses(s', rest)
  }

  // ---------------------------------------------------------------------------
  // Flags
  // ---------------------------------------------------------------------------

  function SetFlag(o: ApplyOptions, f: FlagName): ApplyOptions {
    match f
    case DryRun => o.(dryRun := true)
    case Preflight => o.(preflight := true)
    case Assign => o.(assign := true)
  }

  /** Take the flags out, wherever they stand; the argument of `--main` is never a flag. */
  function TakeFlags(args: seq<Token>, o: ApplyOptions): (seq<Token>, ApplyOptions)
    decreases |args|
  {
    if args == [] then ([], o)
    else if args[0].Flag? then TakeFlags(args[1..], SetFlag(o, args[0].flag))
    else if args[0] == Kw(DashMain) && HasArgument(args) then
      var (rest, o') := TakeFlags(args[2..], o);
      (args[..2] + rest, o')
    else
      var (rest, o') := TakeFlags(args[1..], o);
      ([args[0]] + rest, o')
  }

  const NO_OPTIONS := ApplyOptions(false, false, false)

  function ParseTokens(ts: seq<Token>): Result<(Bundle, ApplyOptions), ParseError> {
    var (rest, opts) := TakeFlags(ts, NO_OPTIONS);
    match ParseClauses(ParseState(EMPTY_BUNDLE, None), rest)
    case Err(e) => Err(e)
    case Ok(bundle) => Ok((bundle, opts))
  }

  function Parse(args: seq<string>): Result<(Bundle, ApplyOptions), ParseError> {
    ParseTokens(Tokens(args))
  }

  // ---------------------------------------------------------------------------
  // The keyword-first form
  // ---------------------------------------------------------------------------

  predicate AllWords(ws: seq<Token>) {
    forall k :: 0 <= k < |ws| ==> ws[k].Word?
  }

  /** The ids a list of arguments contributes together. */
  function AllIds(ws: seq<Token>): seq<string> {
    if ws == [] then [] else MemberIds(ws[0]) + AllIds(ws[1..])
  }

  /** A member list ends in front of `tail`, and its last word is not mistaken for a lead. */
  predicate CleanTail(tail: seq<Token>) {
    StopsHere(tail) && (tail == [] || !StartsRelation(tail[0]))
  }

  lemma CollectFirst(t: Token, rest: seq<Token>)
    requires !StopsHere([t] + rest)
    ensures CollectAgents([t] + rest) == (MemberIds(t) + CollectAgents(rest).0, CollectAgents(rest).1)
  {
    assert ([t] + rest)[1..] == rest;
  }

  lemma ConsTokens(ws: seq<Token>, tail: seq<Token>)
    requires ws != []
    ensures ws + tail == [ws[0]] + (ws[1..] + tail)
  {
  }

  lemma {:induction false} CollectWords(ws: seq<Token>, tail: seq<Token>)
    requires AllWords(ws) && CleanTail(tail)
    ensures CollectAgents(ws + tail) == (AllIds(ws), tail)
  {
    if ws == [] {
      assert ws + tail == tail;
    } else {
      var rest := ws[1..] + tail;
      ConsTokens(ws, tail);
      assert |ws| > 1 ==> rest[0] == ws[1];
      assert |ws| == 1 ==> rest == tail;
      CollectFirst(ws[0], rest);
      CollectWords(ws[1..], tail);
    }
  }

  lemma LastBeforeKeyword(last: Token, kind: Keyword, more: seq<Token>)
    requires last.Word? && (kind == Supervise || kind == Balance)
    ensures var tail := [Kw(kind)] + more;
            CollectAgents([last] + tail) == if last.seat then (last.ids, tail) else ([], [last] + tail)
  {
    var tail := [Kw(kind)] + more;
    assert CollectAgents(tail) == ([], tail);
    assert ([last] + tail)[1] == Kw(kind);
    if last.seat {
      CollectFirst(last, tail);
      assert last.ids + [] == last.ids;
    }
  }

  lemma AllIdsLast(ws: seq<Token>)
    requires |ws| == 1 && ws[0].Word?
    ensures AllIds(ws) == ws[0].ids && AllIds(ws[..0]) == []
  {
    assert ws[1..] == [] && ws[0].ids + [] == ws[0].ids;
  }

  /**
   * The keyword-first form does not chain: in front of another keyword-first clause a member list
   * keeps its last argument only if that is a `slot-N` or `mini-N` id. Any other last argument is
   * left over, to be read as the lead of the next clause.
   */
  lemma {:induction false} KeywordFirstLosesLastMember(ws: seq<Token>, kind: Keyword, more: seq<Token>)
    requires ws != [] && AllWords(ws) && (kind == Supervise || kind == Balance)
    ensures var n, last, tail := |ws| - 1, ws[|ws| - 1], [Kw(kind)] + more;
            CollectAgents(ws + tail) == if last.seat then (AllIds(ws), tail) else (AllIds(ws[..n]), [last] + tail)
  {
    var tail := [Kw(kind)] + more;
    ConsTokens(ws, tail);
    if |ws| == 1 {
      assert ws[1..] + tail == tail;
      LastBeforeKeyword(ws[0], kind, more);
      AllIdsLast(ws);
    } else {
      var rest := ws[1..] + tail;
      assert rest[0] == ws[1];
      CollectFirst(ws[0], rest);
      KeywordFirstLosesLastMember(ws[1..], kind, more);
      assert ws[..|ws| - 1][1..] == ws[1..][..|ws| - 2];
    }
  }

  function AddRelation(s: ParseState, kind: Keyword, lead: string, members: seq<string>): ParseState {
    if kind == Supervise then AddSupervise(s, lead, members) else AddBalance(s, lead, members)
  }

  lemma ParseFirst(s: ParseState, ts: seq<Token>, s': ParseState, rest: seq<Token>)
    requires ts != [] && ParseClause(s, ts) == Ok((s', rest))
    ensures ParseClauses(s, ts) == ParseClauses(s', rest)
  {
  }

  /** The relation left over by a keyword-first list: its last argument leads, the named lead is led. */
  lemma LeftOverLeads(s: ParseState, last: Token, kind: Keyword, lead: Token, ws: seq<Token>, tail: seq<Token>)
    requires (kind == Supervise || kind == Balance) && CanLead(last)
    requires lead.Word? && lead.ids != [] && AllWords(ws) && CleanTail(tail)
    ensures ParseClauses(s, [last] + ([Kw(kind)] + ([lead] + (ws + tail)))) ==
            ParseClauses(AddRelation(s, kind, Text(last), lead.ids + AllIds(ws)), tail)
  {
    var rest := [lead] + (ws + tail);
    var ts := [last] + ([Kw(kind)] + rest);
    assert ts[2..] == rest && ts[1] == Kw(kind);
    assert [lead] + ws + tail == rest && ([lead] + ws)[1..] == ws;
    CollectWords([lead] + ws, tail);
    ParseFirst(s, ts, AddRelation(s, kind, Text(last), lead.ids + AllIds(ws)), tail);
  }

  lemma FirstOfTwo(s: ParseState, kind: Keyword, lead: Token, list: seq<Token>)
    requires (kind == Supervise || kind == Balance) && !lead.Blank?
    ensures ParseClause(s, [Kw(kind), lead] + list) == ParseRelation(s, kind, Text(lead), list)
  {
    assert ([Kw(kind), lead] + list)[2..] == list;
  }

  /**
   * Two keyword-first relations in a row, the first list ending in no `slot-N` or `mini-N` id, are
   * read without an error and wrongly: the last argument of the first list becomes the lead of the
   * second relation, whose own lead becomes a member. If nothing is left of the first list, the
   * first relation fails.
   */
  lemma KeywordFirstMisparses(s: ParseState, kind: Keyword, lead: Token, ws: seq<Token>,
                              kind': Keyword, lead': Token, ws': seq<Token>, tail: seq<Token>)
    requires (kind == Supervise || kind == Balance) && (kind' == Supervise || kind' == Balance)
    requires !lead.Blank? && ws != [] && AllWords(ws) && !ws[|ws| - 1].seat
    requires lead'.Word? && lead'.ids != [] && AllWords(ws') && CleanTail(tail)
    ensures var n, last := |ws| - 1, ws[|ws| - 1];
            var ts := [Kw(kind), lead] + (ws + ([Kw(kind')] + ([lead'] + (ws' + tail))));
            ParseClauses(s, ts) ==
            if AllIds(ws[..n]) == [] then Err(NeedsMembers(Text(lead)))
            else ParseClauses(AddRelation(AddRelation(s, kind, Text(lead), AllIds(ws[..n])), kind', Text(last),
                                          lead'.ids + AllIds(ws')),
                              tail)
  {
    var n, last := |ws| - 1, ws[|ws| - 1];
    var more := [lead'] + (ws' + tail);
    var list := ws + ([Kw(kind')] + more);
    var ts := [Kw(kind), lead] + list;
    FirstOfTwo(s, kind, lead, list);
    KeywordFirstLosesLastMember(ws, kind', more);
    if AllIds(ws[..n]) != [] {
      var s' := AddRelation(s, kind, Text(lead), AllIds(ws[..n]));
      ParseFirst(s, ts, s', [last] + ([Kw(kind')] + more));
      LeftOverLeads(s', last, kind', lead', ws', tail);
    }
  }

  // ---------------------------------------------------------------------------
  // Errors
  // ---------------------------------------------------------------------------

  /** An empty argument ends a list or a text, and no clause starts with one. */
  lemma BlankEndsList(ws: seq<Token>, more: seq<Token>)
    requires AllWords(ws)
    ensures CollectAgents(ws + ([Blank] + more)) == (AllIds(ws), [Blank] + more)
    ensures forall s :: ParseClause(s, [Blank] + more) == Err(UnknownToken(""))
  {
    CollectWords(ws, [Blank] + more);
  }

  /** Why a clause fails, told from its arguments. */
  lemma WhyClauseFails(s: ParseState, ts: seq<Token>)
    requires ts != []
    ensures var word := ts[0];
            var taken := HasArgument(ts) && word in {Kw(DashMain), Kw(Interval), Kw(Main)};
            var led := !taken && !word.Instruction? && IsLeadFirst(ts);
            && (taken ==> ParseClause(s, ts).Ok?)
            && (word.Instruction? ==>
                  (ParseClause(s, ts).Err? <==> Trim(Joined(CollectText(ts[1..]).0)) == "")
                  && (ParseClause(s, ts).Err? ==> ParseClause(s, ts).error == InstructionNeedsText(word.index)))
            && (led ==> (ParseClause(s, ts).Err? <==> CollectAgents(ts[2..]).0 == [])
                        && (ParseClause(s, ts).Err? ==> ParseClause(s, ts).error == NeedsMembers(Text(word))))
            && (word == Kw(Supervise) || word == Kw(Balance) ==>
                  if !HasArgument(ts) then ParseClause(s, ts) == Err(NeedsLead(word.keyword))
                  else (ParseClause(s, ts).Err? <==> CollectAgents(ts[2..]).0 == [])
                       && (ParseClause(s, ts).Err? ==> ParseClause(s, ts).error == NeedsMembers(Text(ts[1]))))
            && (word == Kw(NoInbound) ==>
                  if |ts| < 3 || ts[2] != Kw(From) then ParseClause(s, ts) == Err(NeedsFrom)
                  else (ParseClause(s, ts).Err? <==> ts[1].Blank? || CollectAgents(ts[3..]).0 == [])
                       && (ParseClause(s, ts).Err? ==> ParseClause(s, ts).error == NeedsMembers(Text(ts[1]))))
            && (!taken && !led && (word.Word? || word.Flag? || word.Blank?
                                   || word in {Kw(DashMain), Kw(Interval), Kw(Main), Kw(From)}) ==>
                  ParseClause(s, ts) == Err(UnknownToken(Text(word))))
  {
  }

  // ---------------------------------------------------------------------------
  // Flags where ids were meant
  // ---------------------------------------------------------------------------

  /** The argument behind `a` is not the main lead a `--main` is waiting for. */
  predicate AfterWhole(a: seq<Token>)
    decreases |a|
  {
    a == [] || (
      if a[0] != Kw(DashMain) then AfterWhole(a[1..])
      else if |a| == 1 then false
      else AfterWhole(if a[1].Blank? then a[1..] else a[2..]))
  }

  lemma {:induction false} FlagIsTaken(a: seq<Token>, f: FlagName, c: seq<Token>, o: ApplyOptions)
    requires AfterWhole(a)
    ensures TakeFlags(a + ([Flag(f)] + c), o) == TakeFlags(a + c, SetFlag(o, f))
    decreases |a|
  {
    var with, without := a + ([Flag(f)] + c), a + c;
    if a == [] {
      assert with == [Flag(f)] + c && without == c;
      assert with[1..] == c;
    } else {
      assert with[1..] == a[1..] + ([Flag(f)] + c) && without[1..] == a[1..] + c;
      assert with[0] == a[0] && without[0] == a[0];
      if a[0].Flag? {
        FlagIsTaken(a[1..], f, c, SetFlag(o, a[0].flag));
        assert SetFlag(SetFlag(o, a[0].flag), f) == SetFlag(SetFlag(o, f), a[0].flag);
      } else if a[0] == Kw(DashMain) && !a[1].Blank? {
        assert with[1] == a[1] && without[1] == a[1];
        assert with[..2] == a[..2] && without[..2] == a[..2];
        assert with[2..] == a[2..] + ([Flag(f)] + c) && without[2..] == a[2..] + c;
        FlagIsTaken(a[2..], f, c, o);
      } else {
        assert |a| > 1 ==> with[1] == a[1] && without[1] == a[1];
        FlagIsTaken(a[1..], f, c, o);
      }
    }
  }

  lemma {:induction false} FlagsCarryOver(ts: seq<Token>, o: ApplyOptions, f: FlagName)
    ensures TakeFlags(ts, SetFlag(o, f)) == (TakeFlags(ts, o).0, SetFlag(TakeFlags(ts, o).1, f))
    decreases |ts|
  {
    if ts != [] {
      if ts[0].Flag? {
        assert SetFlag(SetFlag(o, ts[0].flag), f) == SetFlag(SetFlag(o, f), ts[0].flag);
        FlagsCarryOver(ts[1..], SetFlag(o, ts[0].flag), f);
      } else if ts[0] == Kw(DashMain) && HasArgument(ts) {
        FlagsCarryOver(ts[2..], o, f);
      } else {
        FlagsCarryOver(ts[1..], o, f);
      }
    }
  }

  /**
   * An id spelled like a flag and written without brackets is taken for the flag wherever it
   * stands, unless directly behind a `--main`: the arguments parse as if it were not there, with
   * the option set.
   */
  lemma BareFlagMemberVanishes(a: seq<Token>, f: FlagName, c: seq<Token>)
    requires AfterWhole(a)
    ensures ParseTokens(a + ([Flag(f)] + c)) ==
            match ParseTokens(a + c)
            case Err(e) => Err(e)
            case Ok((bundle, opts)) => Ok((bundle, SetFlag(opts, f)))
  {
    FlagIsTaken(a, f, c, NO_OPTIONS);
    FlagsCarryOver(a + c, NO_OPTIONS, f);
  }

  /** So a list whose only member is spelled like a flag is no list at all. */
  lemma BareFlagListFails(lead: Token, f: FlagName)
    requires lead.Word? && !lead.seat
    ensures ParseTokens([lead, Kw(Supervise), Flag(f)]) == Err(NeedsMembers(Text(lead)))
  {
    var a := [lead, Kw(Supervise)];
    assert a[1..] == [Kw(Supervise)] && a[1..][1..] == [];
    assert a + ([Flag(f)] + []) == [lead, Kw(Supervise), Flag(f)] && a + [] == a;
    BareFlagMemberVanishes(a, f, []);
    assert TakeFlags([], NO_OPTIONS) == ([], NO_OPTIONS);
    assert TakeFlags(a[1..], NO_OPTIONS) == ([Kw(Supervise)] + [], NO_OPTIONS);
    assert [lead] + a[1..] == a;
    assert CollectAgents(a[2..]) == ([], a[2..]);
  }

  // ---------------------------------------------------------------------------
  // The loops of the program
  // ---------------------------------------------------------------------------

  lemma CollectOneMore(agents: seq<string>, rest: seq<Token>, next: nat)
    requires next < |rest| && !StopsHere(rest[next..])
    ensures agents + CollectAgents(rest[next..]).0
         == (agents + MemberIds(rest[next])) + CollectAgents(rest[next + 1..]).0
    ensures CollectAgents(rest[next..]).1 == CollectAgents(rest[next + 1..]).1
  {
    assert rest[next..][1..] == rest[next + 1..];
  }

  method CollectAgentList(rest: seq<Token>, start: nat) returns (agents: seq<string>, next: nat)
    requires start <= |rest|
    ensures start <= next <= |rest|
    ensures (agents, rest[next..]) == CollectAgents(rest[start..])
  {
    agents, next := [], start;
    assert agents + CollectAgents(rest[start..]).0 == CollectAgents(rest[start..]).0;
    while next < |rest| && !StopsHere(rest[next..])
      invariant start <= next <= |rest|
      invariant CollectAgents(rest[start..]) ==
                (agents + CollectAgents(rest[next..]).0, CollectAgents(rest[next..]).1)
    {
      CollectOneMore(agents, rest, next);
      agents := agents + MemberIds(rest[next]);
      next := next + 1;
    }
    assert agents + [] == agents;
  }

  method CollectInstructionText(rest: seq<Token>, start: nat) returns (text: string, next: nat)
    requires start <= |rest|
    ensures start <= next <= |rest|
    ensures var (words, tail) := CollectText(rest[start..]); text == Trim(Joined(words)) && rest[next..] == tail
  {
    var words: seq<Token>;
    words, next := [], start;
    assert words + CollectText(rest[start..]).0 == CollectText(rest[start..]).0;
    while next < |rest| && !StopsHere(rest[next..])
      invariant start <= next <= |rest|
      invariant CollectText(rest[start..]) == (words + CollectText(rest[next..]).0, CollectText(rest[next..]).1)
    {
      assert rest[next..][1..] == rest[next + 1..];
      assert words + CollectText(rest[next..]).0 == words + [rest[next]] + CollectText(rest[next + 1..]).0;
      words := words + [rest[next]];
      next := next + 1;
    }
    assert words + [] == words;
    text := Trim(Joined(words));
  }

  method SplitFlags(args: seq<Token>) returns (rest: seq<Token>, opts: ApplyOptions)
    ensures (rest, opts) == TakeFlags(args, NO_OPTIONS)
  {
    rest, opts := [], NO_OPTIONS;
    assert args[0..] == args;
    assert rest + TakeFlags(args, opts).0 == TakeFlags(args, opts).0;
    var i := 0;
    while i < |args|
      invariant 0 <= i <= |args|
      invariant TakeFlags(args, NO_OPTIONS) == (rest + TakeFlags(args[i..], opts).0, TakeFlags(args[i..], opts).1)
    {
      var a := args[i];
      ghost var kept := rest;
      assert args[i..][1..] == args[i + 1..];
      if a.Flag? {
        opts := SetFlag(opts, a.flag);
      } else if a == Kw(DashMain) && i + 1 < |args| && !args[i + 1].Blank? {
        assert args[i..][2..] == args[i + 2..];
        assert args[i..][..2] == [a, args[i + 1]];
        assert kept + TakeFlags(args[i..], opts).0 == kept + [a, args[i + 1]] + TakeFlags(args[i + 2..], opts).0;
        rest := rest + [a, args[i + 1]];
        i := i + 1;
      } else {
        assert kept + TakeFlags(args[i..], opts).0 == kept + [a] + TakeFlags(args[i + 1..], opts).0;
        rest := rest + [a];
      }
      i := i + 1;
    }
    assert rest + [] == rest;
  }

  /** One clause by index: what the body of the program's loop does at position `i`. */
  method ReadClause(rest: seq<Token>, i: nat, s: ParseState)
    returns (r: Result<ParseState, ParseError>, next: nat)
    requires i < |rest|
    ensures r.Ok? ==> i < next <= |rest| && ParseClause(s, rest[i..]) == Ok((r.value, rest[next..]))
    ensures r.Err? ==> ParseClause(s, rest[i..]) == Err(r.error)
  {
    var word := rest[i];
    var hasNext := i + 1 < |rest| && !rest[i + 1].Blank?;
    next := i + 2;
    if (word == Kw(DashMain) || word == Kw(Main)) && hasNext {
      r := Ok(s.(bundle := s.bundle.(mainLead := Text(rest[i + 1]))));
      assert rest[i..][2..] == rest[next..];
    } else if word == Kw(Interval) && hasNext {
      r := Ok(s.(pending := Some(Text(rest[i + 1]))));
      assert rest[i..][2..] == rest[next..];
    } else if word.Instruction? {
      var text;
      assert rest[i..][1..] == rest[i + 1..];
      text, next := CollectInstructionText(rest, i + 1);
      if text == "" {
        return Err(InstructionNeedsText(word.index)), next;
      }
      var entry := InstructionEntry(word.index, text);
      r := Ok(s.(bundle := s.bundle.(instructions := s.bundle.instructions + [entry])));
    } else if IsLeadFirst(rest[i..]) {
      r, next := ReadRelation(rest, i + 2, s, rest[i + 1].keyword, Text(word));
      assert rest[i..][2..] == rest[i + 2..];
    } else if StartsRelation(word) {
      if !hasNext {
        return Err(NeedsLead(word.keyword)), next;
      }
      r, next := ReadRelation(rest, i + 2, s, word.keyword, Text(rest[i + 1]));
      assert rest[i..][2..] == rest[i + 2..];
    } else if word == Kw(NoInbound) {
      if i + 2 >= |rest| || rest[i + 2] != Kw(From) {
        return Err(NeedsFrom), next;
      }
      var from;
      assert rest[i..][3..] == rest[i + 3..];
      from, next := CollectAgentList(rest, i + 3);
      if rest[i + 1].Blank? || from == [] {
        return Err(NeedsMembers(Text(rest[i + 1]))), next;
      }
      r := Ok(s.(bundle := s.bundle.(traffic := s.bundle.traffic + [TrafficEntry(Text(rest[i + 1]), from)])));
    } else {
      return Err(UnknownToken(Text(word))), next;
    }
  }

  method ReadRelation(rest: seq<Token>, start: nat, s: ParseState, kind: Keyword, lead: string)
    returns (r: Result<ParseState, ParseError>, next: nat)
    requires start <= |rest|
    ensures r.Ok? ==>
              start <= next <= |rest| && ParseRelation(s, kind, lead, rest[start..]) == Ok((r.value, rest[next..]))
    ensures r.Err? ==> ParseRelation(s, kind, lead, rest[start..]) == Err(r.error)
  {
    var members;
    members, next := CollectAgentList(rest, start);
    if members == [] {
      return Err(NeedsMembers(lead)), next;
    }
    r := Ok(if kind == Supervise then AddSupervise(s, lead, members) else AddBalance(s, lead, members));
  }

  method ParseAgentApplyArgs(args: seq<string>) returns (r: Result<(Bundle, ApplyOptions), ParseError>)
    ensures r == Parse(args)
  {
    var rest, opts := SplitFlags(Tokens(args));
    var s := ParseState(EMPTY_BUNDLE, None);
    var i := 0;
    while i < |rest|
      invariant 0 <= i <= |rest|
      invariant ParseClauses(s, rest[i..]) == ParseClauses(ParseState(EMPTY_BUNDLE, None), rest)
    {
      var step, next := ReadClause(rest, i, s);
      if step.Err? {
        return Err(step.error);
      }
      s, i := step.value, next;
    }
    return Ok((s.bundle, opts));
  }
}
