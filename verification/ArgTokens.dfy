/**
 * How `agent apply` classifies its arguments: keywords, flags, instruction marks and words. A token
 * keeps the spelling of its argument, so that nothing is lost (`TextOfClassify`).
 */
module ArgTokens {
  import opened Basics
  import opened ArgText

  datatype Keyword = Supervise | Balance | Interval | Main | NoInbound | From | DashMain

  datatype FlagName = DryRun | Preflight | Assign

  /**
   * `Word` is any other argument but the empty one, with the ids it adds to a member list; `seat`
   * says whether it is a `slot-N` or `mini-N` id, which never stands first in a relation.
   */
  datatype Token =
    | Kw(keyword: Keyword)
    | Instruction(index: nat, spelling: string)
    | Flag(flag: FlagName)
    | Word(spelling: string, ids: seq<string>, seat: bool)
    | Blank

  function KeywordText(k: Keyword): string {
    match k
    case Supervise => "supervise"
    case Balance => "balance"
    case Interval => "interval"
    case Main => "main"
    case NoInbound => "no-inbound"
    case From => "from"
    case DashMain => "--main"
  }

  function KeywordOf(s: string): (r: Option<Keyword>)
    ensures r.Some? ==> KeywordText(r.value) == s
  {
    if s == "supervise" then Some(Supervise)
    else if s == "balance" then Some(Balance)
    else if s == "interval" then Some(Interval)
    else if s == "main" then Some(Main)
    else if s == "no-inbound" then Some(NoInbound)
    else if s == "from" then Some(From)
    else if s == "--main" then Some(DashMain)
    else None
  }

  function FlagText(f: FlagName): string {
    match f
    case DryRun => "--dry-run"
    case Preflight => "--preflight"
    case Assign => "--assign"
  }

  function FlagOf(s: string): (r: Option<FlagName>)
    ensures r.Some? ==> FlagText(r.value) == s
  {
    if s == "--dry-run" then Some(DryRun)
    else if s == "--preflight" then Some(Preflight)
    else if s == "--assign" then Some(Assign)
    else None
  }

  // ---------------------------------------------------------------------------
  // Numbers
  // ---------------------------------------------------------------------------

  predicate IsDigit(c: char) {
    '0' <= c <= '9'
  }

  function DigitOf(c: char): nat {
    if IsDigit(c) then c as int - '0' as int else 0
  }

  predicate AllDigits(s: string) {
    s != "" && forall k :: 0 <= k < |s| ==> IsDigit(s[k])
  }

  function NumberOf(s: string): nat
    requires forall k :: 0 <= k < |s| ==> IsDigit(s[k])
  {
    if s == "" then 0 else 10 * NumberOf(s[..|s| - 1]) + DigitOf(s[|s| - 1])
  }

  function Digits(n: nat): (s: string)
    ensures AllDigits(s) && NumberOf(s) == n
  {
    var last := [('0' as int + n % 10) as char];
    if n < 10 then last
    else
      var s := Digits(n / 10) + last;
      assert s[..|s| - 1] == Digits(n / 10);
      s
  }

  // ---------------------------------------------------------------------------
  // Classification
  // ---------------------------------------------------------------------------

  const MARK := "instruction["

  predicate StartsWith(s: string, prefix: string) {
    |prefix| <= |s| && s[..|prefix|] == prefix
  }

  predicate IsInstruction(s: string) {
    && StartsWith(s, MARK) && s[|s| - 1] == ']'
    && |s| > |MARK| + 1 && AllDigits(s[|MARK|..|s| - 1])
  }

  function Lower(c: char): char {
    if 'A' <= c <= 'Z' then (c as int + 32) as char else c
  }

  /** `slot-N` or `mini-N`, in any letter case. */
  predicate IsSeatId(s: string) {
    && |s| > 5
    && (var head := seq(5, k requires 0 <= k < 5 => Lower(s[k])); head == "slot-" || head == "mini-")
    && AllDigits(s[5..])
  }

  function Classify(s: string): Token {
    if s == "" then Blank
    else if FlagOf(s).Some? then Flag(FlagOf(s).value)
    else if KeywordOf(s).Some? then Kw(KeywordOf(s).value)
    else if IsInstruction(s) then Token.Instruction(NumberOf(s[|MARK|..|s| - 1]), s)
    else Word(s, MemberList(s), IsSeatId(s))
  }

  function Text(t: Token): string {
    match t
    case Kw(k) => KeywordText(k)
    case Instruction(_, spelling) => spelling
    case Flag(f) => FlagText(f)
    case Word(spelling, _, _) => spelling
    case Blank => ""
  }

  lemma TextOfClassify(s: string)
    ensures Text(Classify(s)) == s
    ensures Classify(s).Blank? <==> s == ""
  {
  }

  /** The token is what some argument is read as. */
  predicate Read(t: Token) {
    Classify(Text(t)) == t
  }

  lemma ClassifiedIsRead(s: string)
    ensures Read(Classify(s))
  {
    TextOfClassify(s);
  }

  lemma NoFlag(s: string)
    requires s == "" || s[0] != '-' || |s| < 8
    ensures FlagOf(s).None?
  {
  }

  /** No two keywords have the same length but "main" and "from". */
  lemma KeywordOfText(k: Keyword)
    ensures KeywordOf(KeywordText(k)) == Some(k)
  {
    match k {
      case Supervise =>
      case Balance => assert |KeywordText(k)| == 7;
      case Interval => assert |KeywordText(k)| == 8;
      case Main => assert |KeywordText(k)| == 4;
      case NoInbound => assert |KeywordText(k)| == 10;
      case From => assert |KeywordText(k)| == 4 && KeywordText(k)[0] == 'f';
      case DashMain => assert |KeywordText(k)| == 6;
    }
  }

  lemma KeywordIsRead(k: Keyword)
    ensures Read(Kw(k))
  {
    var s := KeywordText(k);
    KeywordOfText(k);
    NoFlag(s);
    ClassifyKeyword(s, k);
  }

  lemma ClassifyKeyword(s: string, k: Keyword)
    requires s != "" && FlagOf(s).None? && KeywordOf(s) == Some(k)
    ensures Classify(s) == Kw(k)
  {
  }

  lemma FlagIsRead(f: FlagName)
    ensures Read(Flag(f))
  {
  }

  function Tokens(args: seq<string>): (r: seq<Token>)
    ensures |r| == |args| && forall k :: 0 <= k < |args| ==> r[k] == Classify(args[k])
  {
    seq(|args|, k requires 0 <= k < |args| => Classify(args[k]))
  }

  function Texts(ts: seq<Token>): (r: seq<string>)
    ensures |r| == |ts| && forall k :: 0 <= k < |ts| ==> r[k] == Text(ts[k])
  {
    seq(|ts|, k requires 0 <= k < |ts| => Text(ts[k]))
  }

  predicate AllRead(ts: seq<Token>) {
    forall k :: 0 <= k < |ts| ==> Read(ts[k])
  }

  lemma TokensAreRead(args: seq<string>)
    ensures AllRead(Tokens(args)) && Texts(Tokens(args)) == args
  {
    forall k | 0 <= k < |args|
      ensures Read(Tokens(args)[k]) && Texts(Tokens(args))[k] == args[k]
    {
      TextOfClassify(args[k]);
    }
  }

  lemma ReadBack(ts: seq<Token>)
    requires AllRead(ts)
    ensures Tokens(Texts(ts)) == ts
  {
    forall k | 0 <= k < |ts|
      ensures Tokens(Texts(ts))[k] == ts[k]
    {
      assert Read(ts[k]);
    }
  }

  // ---------------------------------------------------------------------------
  // What each string is read as
  // ---------------------------------------------------------------------------

  ghost predicate MarkSpelling(s: string, digits: string) {
    s == "instruction[" + digits + "]" && AllDigits(digits)
  }

  /** The letters of a word in either case. */
  predicate SpelledIn(s: string, lower: string, upper: string)
    requires |lower| == |upper|
  {
    |s| == |lower| && forall k :: 0 <= k < |s| ==> s[k] == lower[k] || s[k] == upper[k]
  }

  ghost predicate SeatSpelling(s: string) {
    exists head, digits ::
      && s == head + digits && AllDigits(digits)
      && (SpelledIn(head, "slot-", "SLOT-") || SpelledIn(head, "mini-", "MINI-"))
  }

  lemma LowerIsEitherCase(c: char, lower: char)
    requires 'a' <= lower <= 'z' || lower == '-'
    ensures Lower(c) == lower <==> c == lower || ('a' <= lower <= 'z' && c as int == lower as int - 32)
  {
  }

  function Lowered(s: string): string {
    seq(|s|, k requires 0 <= k < |s| => Lower(s[k]))
  }

  lemma SpelledIffLower(head: string, lower: string, upper: string)
    requires (lower == "slot-" && upper == "SLOT-") || (lower == "mini-" && upper == "MINI-")
    ensures SpelledIn(head, lower, upper) <==> Lowered(head) == lower
  {
    forall k | 0 <= k < |lower|
      ensures || ('a' <= lower[k] <= 'z' && upper[k] as int == lower[k] as int - 32)
              || (lower[k] == '-' && upper[k] == '-')
    {
    }
    if SpelledIn(head, lower, upper) {
      forall k | 0 <= k < |head|
        ensures Lowered(head)[k] == lower[k]
      {
        LowerIsEitherCase(head[k], lower[k]);
      }
    }
    if Lowered(head) == lower {
      forall k | 0 <= k < |head|
        ensures head[k] == lower[k] || head[k] == upper[k]
      {
        LowerIsEitherCase(head[k], lower[k]);
      }
    }
  }

  lemma SeatIdIff(s: string)
    ensures IsSeatId(s) <==> SeatSpelling(s)
  {
    if |s| > 5 {
      var head := s[..5];
      assert s == head + s[5..];
      assert Lowered(head) == seq(5, k requires 0 <= k < 5 => Lower(s[k]));
      SpelledIffLower(head, "slot-", "SLOT-");
      SpelledIffLower(head, "mini-", "MINI-");
    }
    if head, digits :| s == head + digits && AllDigits(digits)
                       && (SpelledIn(head, "slot-", "SLOT-") || SpelledIn(head, "mini-", "MINI-")) {
      assert head == s[..5] && digits == s[5..];
    }
  }

  lemma SeatIdChars(s: string, k: nat)
    requires IsSeatId(s) && k < |s|
    ensures s[k] != ',' && !IsSpace(s[k]) && s[k] != '['
    ensures k == 0 ==> s[k] != '-' && s[k] != 'i' && s[k] != 'n'
    ensures k == 4 ==> s[k] == '-'
  {
    var head := seq(5, k requires 0 <= k < 5 => Lower(s[k]));
    if k < 5 {
      assert head[k] == Lower(s[k]);
    } else {
      assert s[k] == s[5..][k - 5];
    }
  }

  lemma NoKeyword(s: string)
    requires |s| > 5 && s[4] == '-' && s[0] != '-'
    ensures KeywordOf(s).None?
  {
  }

  /** A seat id is a word that names itself, and carries the seat mark. */
  lemma SeatIsRead(s: string)
    requires SeatSpelling(s)
    ensures Classify(s) == Word(s, [s], true)
  {
    SeatIdIff(s);
    SeatIdChars(s, 0);
    SeatIdChars(s, 4);
    NoFlag(s);
    NoKeyword(s);
    forall k | 0 <= k < |s|
      ensures !IsSpace(s[k]) && s[k] != ','
    {
      SeatIdChars(s, k);
    }
    PlainMember(s);
    MarkStartsWithI(s);
  }

  lemma MarkStartsWithI(s: string)
    ensures IsInstruction(s) ==> s != "" && s[0] == 'i' && s[|s| - 1] == ']'
  {
    if IsInstruction(s) {
      assert s[0] == s[..|MARK|][0];
    }
  }

  /**
   * Exactly which arguments carry the seat mark: "slot-" or "mini-" in any letter case, followed by
   * digits alone.
   */
  lemma SeatIff(s: string)
    ensures Classify(s).Word? && Classify(s).seat <==> SeatSpelling(s)
  {
    if SeatSpelling(s) {
      SeatIsRead(s);
    } else {
      SeatIdIff(s);
    }
  }

  lemma MarkIff(s: string)
    ensures IsInstruction(s) <==> exists digits :: MarkSpelling(s, digits)
    ensures forall digits :: MarkSpelling(s, digits) ==> IsInstruction(s) && s[|MARK|..|s| - 1] == digits
  {
    if IsInstruction(s) {
      assert s == MARK + s[|MARK|..|s| - 1] + "]";
      assert MarkSpelling(s, s[|MARK|..|s| - 1]);
    }
    forall digits | MarkSpelling(s, digits)
      ensures IsInstruction(s) && s[|MARK|..|s| - 1] == digits
    {
      assert s[..|MARK|] == MARK;
    }
  }

  /** Exactly which arguments are flags, keywords and instruction marks; any other one is a word. */
  lemma ClassifyIff(s: string)
    ensures Classify(s).Flag? <==> s in ["--dry-run", "--preflight", "--assign"]
    ensures Classify(s).Kw? <==> s in ["supervise", "balance", "interval", "main", "no-inbound", "from", "--main"]
    ensures Classify(s).Instruction? <==> exists digits :: MarkSpelling(s, digits)
    ensures forall digits :: MarkSpelling(s, digits) ==> Classify(s) == Token.Instruction(NumberOf(digits), s)
    ensures Classify(s).Blank? <==> s == ""
  {
    KeywordsAreNoMarks(s);
    MarkIff(s);
  }

  lemma KeywordsAreNoMarks(s: string)
    ensures FlagOf(s).Some? ==> KeywordOf(s).None? && s[|s| - 1] != ']'
    ensures KeywordOf(s).Some? ==> s[|s| - 1] != ']'
  {
  }

  /** The keywords and flags by name, and a number by its digits. */
  lemma ByName()
    ensures Classify("supervise") == Kw(Supervise) && Classify("balance") == Kw(Balance)
    ensures Classify("interval") == Kw(Interval) && Classify("main") == Kw(Main) && Classify("--main") == Kw(DashMain)
    ensures Classify("no-inbound") == Kw(NoInbound) && Classify("from") == Kw(From)
    ensures Classify("--dry-run") == Flag(DryRun) && Classify("--preflight") == Flag(Preflight)
    ensures Classify("--assign") == Flag(Assign)
  {
    KeywordIsRead(Supervise);
    KeywordIsRead(Balance);
    KeywordIsRead(Interval);
    KeywordIsRead(Main);
    KeywordIsRead(DashMain);
    KeywordIsRead(NoInbound);
    KeywordIsRead(From);
    FlagIsRead(DryRun);
    FlagIsRead(Preflight);
    FlagIsRead(Assign);
  }

  // ---------------------------------------------------------------------------
  // Member arguments
  // ---------------------------------------------------------------------------

  /** The ids one argument contributes to a member list. */
  function MemberIds(t: Token): seq<string> {
    match t
    case Word(_, ids, _) => ids
    case Flag(f) => [FlagText(f)]
    case _ => []
  }

  lemma FlagSpelling(f: FlagName)
    ensures var s := FlagText(f); s != "" && s[0] == '-' && ',' !in s && Unspaced(s)
  {
    match f {
      case DryRun => assert FlagText(f) == "--dry-run";
      case Preflight => assert FlagText(f) == "--preflight";
      case Assign => assert FlagText(f) == "--assign";
    }
  }

  /** A flag is a member list of one, too. */
  lemma FlagMember(f: FlagName)
    ensures MemberList(FlagText(f)) == [FlagText(f)]
  {
    FlagSpelling(f);
    PlainMember(FlagText(f));
  }

  lemma MemberIdsSpellable(t: Token)
    requires Read(t)
    ensures forall id :: id in MemberIds(t) ==> Spellable(id)
  {
    if t.Flag? {
      FlagMember(t.flag);
      MembersAreSpellable(FlagText(t.flag));
    } else if t.Word? {
      MembersAreSpellable(t.spelling);
    }
  }

  /** An argument for one id: the id itself where that is read so, else one that is never misread. */
  function MemberArg(id: string): Token {
    var plain := Classify(id);
    if plain.Word? && plain.ids == [id] then plain else Classify(Alone(id))
  }

  lemma LastChar(s: string, c: char)
    requires s != "" && s[|s| - 1] == c && (c == ',' || c == ']')
    ensures FlagOf(s).None? && KeywordOf(s).None?
  {
  }

  lemma AloneIsWord(id: string)
    requires Spellable(id)
    ensures Classify(Alone(id)).Word?
  {
    var s := Alone(id);
    LastChar(s, s[|s| - 1]);
    if !Unspaced(id) {
      assert s[0] == '[';
    }
  }

  lemma MemberArgNames(id: string)
    requires Spellable(id)
    ensures var t := MemberArg(id); Read(t) && t.Word? && MemberIds(t) == [id]
  {
    AloneIsAlone(id);
    AloneIsWord(id);
    ClassifiedIsRead(id);
    ClassifiedIsRead(Alone(id));
  }

  function InstructionArg(n: nat): Token {
    Classify(MARK + Digits(n) + "]")
  }

  lemma InstructionArgReads(n: nat)
    ensures var t := InstructionArg(n); t.Instruction? && t.index == n && Read(t)
  {
    var s := MARK + Digits(n) + "]";
    assert s[..|MARK|] == MARK && s[|MARK|..|s| - 1] == Digits(n);
    LastChar(s, ']');
    ClassifiedIsRead(s);
  }

  /** With a blank in front an instruction text is never taken for anything else. */
  function TextArg(text: string): Token {
    Classify(" " + text)
  }

  lemma LeadingBlank(s: string)
    requires s != "" && s[0] == ' '
    ensures FlagOf(s).None? && KeywordOf(s).None? && !IsInstruction(s)
  {
  }

  lemma TextArgReads(text: string)
    ensures var t := TextArg(text); t.Word? && t.spelling == " " + text && Read(t)
  {
    LeadingBlank(" " + text);
    ClassifiedIsRead(" " + text);
  }
}
