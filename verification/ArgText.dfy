/**
 * The text of command-line arguments: trimming, splitting and member lists. Main result: which ids
 * a member list can hold at all, and an argument that holds exactly one such id.
 */
module ArgText {

  // ---------------------------------------------------------------------------
  // Trimming
  // ---------------------------------------------------------------------------

  /** What `trim` and `\s` take for white space. */
  predicate IsSpace(c: char) {
    || c == ' ' || '\U{0009}' <= c <= '\U{000D}' || c == '\U{00A0}' || c == '\U{1680}'
    || '\U{2000}' <= c <= '\U{200A}' || c == '\U{2028}' || c == '\U{2029}' || c == '\U{202F}'
    || c == '\U{205F}' || c == '\U{3000}' || c == '\U{FEFF}'
  }

  function TrimLeft(s: string): string {
    if s != "" && IsSpace(s[0]) then TrimLeft(s[1..]) else s
  }

  function TrimRight(s: string): string {
    if s != "" && IsSpace(s[|s| - 1]) then TrimRight(s[..|s| - 1]) else s
  }

  function Trim(s: string): string {
    TrimRight(TrimLeft(s))
  }

  predicate Trimmed(s: string) {
    s == "" || (!IsSpace(s[0]) && !IsSpace(s[|s| - 1]))
  }

  predicate Unspaced(s: string) {
    forall k :: 0 <= k < |s| ==> !IsSpace(s[k])
  }

  lemma {:induction false} TrimLeftStarts(s: string)
    ensures var t := TrimLeft(s); t == "" || !IsSpace(t[0])
  {
    if s != "" && IsSpace(s[0]) {
      TrimLeftStarts(s[1..]);
    }
  }

  lemma {:induction false} TrimRightEnds(s: string)
    requires s == "" || !IsSpace(s[0])
    ensures Trimmed(TrimRight(s))
  {
    if s != "" && IsSpace(s[|s| - 1]) {
      TrimRightEnds(s[..|s| - 1]);
    }
  }

  lemma TrimIsTrimmed(s: string)
    ensures Trimmed(Trim(s))
  {
    TrimLeftStarts(s);
    TrimRightEnds(TrimLeft(s));
  }

  lemma TrimOfTrimmed(s: string)
    requires Trimmed(s)
    ensures Trim(s) == s
  {
  }

  lemma TrimBehindBlank(s: string)
    ensures Trim(" " + s) == Trim(s)
  {
    assert (" " + s)[1..] == s;
  }

  /** Trimming only takes characters away. */
  lemma {:induction false} TrimKeepsOut(s: string, c: char)
    requires c !in s
    ensures c !in Trim(s)
  {
    TrimLeftKeepsOut(s, c);
    TrimRightKeepsOut(TrimLeft(s), c);
  }

  lemma {:induction false} TrimLeftKeepsOut(s: string, c: char)
    requires c !in s
    ensures c !in TrimLeft(s)
  {
    if s != "" && IsSpace(s[0]) {
      TrimLeftKeepsOut(s[1..], c);
    }
  }

  lemma {:induction false} TrimRightKeepsOut(s: string, c: char)
    requires c !in s
    ensures c !in TrimRight(s)
  {
    if s != "" && IsSpace(s[|s| - 1]) {
      TrimRightKeepsOut(s[..|s| - 1], c);
    }
  }

  // ---------------------------------------------------------------------------
  // Splitting
  // ---------------------------------------------------------------------------

  /** The stretches between separators. */
  function Split(s: string, isSep: char -> bool): (r: seq<string>)
    ensures |r| >= 1
  {
    if s == "" then [""]
    else
      var rest := Split(s[1..], isSep);
      if isSep(s[0]) then [""] + rest else [[s[0]] + rest[0]] + rest[1..]
  }

  function NonEmpty(ss: seq<string>): (r: seq<string>)
    ensures forall x :: x in r <==> x in ss && x != ""
  {
    if ss == [] then []
    else if ss[0] == "" then NonEmpty(ss[1..])
    else [ss[0]] + NonEmpty(ss[1..])
  }

  function TrimEach(ss: seq<string>): (r: seq<string>)
    ensures |r| == |ss| && forall k :: 0 <= k < |ss| ==> r[k] == Trim(ss[k])
  {
    seq(|ss|, k requires 0 <= k < |ss| => Trim(ss[k]))
  }

  predicate ListSep(c: char) {
    c == ',' || c == '+'
  }

  predicate WordSep(c: char) {
    c == ',' || IsSpace(c)
  }

  predicate Bracketed(t: string) {
    t != "" && t[0] == '[' && t[|t| - 1] == ']'
  }

  /**
   * The ids of one argument of a member list: in brackets they are separated by commas and pluses
   * and trimmed, elsewhere by commas and white space. Splitting at every separator and dropping
   * empty stretches is the same as splitting at runs of them.
   */
  function MemberList(raw: string): seq<string> {
    var t := Trim(raw);
    if Bracketed(t) then NonEmpty(TrimEach(Split(t[1..|t| - 1], ListSep)))
    else NonEmpty(Split(t, WordSep))
  }

  /** A stretch of `s`: no separator in it, and no character that `s` does not hold. */
  predicate Piece(p: string, s: string, isSep: char -> bool) {
    forall c :: c in p ==> c in s && !isSep(c)
  }

  lemma {:induction false} SplitPieces(s: string, isSep: char -> bool)
    ensures forall k :: 0 <= k < |Split(s, isSep)| ==> Piece(Split(s, isSep)[k], s, isSep)
  {
    if s != "" {
      var rest := Split(s[1..], isSep);
      SplitPieces(s[1..], isSep);
      forall k | 0 <= k < |Split(s, isSep)|
        ensures Piece(Split(s, isSep)[k], s, isSep)
      {
        var from := if isSep(s[0]) then k - 1 else k;
        assert from >= 0 ==> Piece(rest[from], s[1..], isSep);
        if isSep(s[0]) {
          assert k > 0 ==> Split(s, isSep)[k] == rest[k - 1];
        } else {
          assert k > 0 ==> Split(s, isSep)[k] == rest[1..][k - 1];
        }
      }
    }
  }

  lemma {:induction false} SplitWhole(s: string, isSep: char -> bool)
    requires forall c :: c in s ==> !isSep(c)
    ensures Split(s, isSep) == [s]
  {
    if s != "" {
      SplitWhole(s[1..], isSep);
      assert !isSep(s[0]) && [s[0]] + s[1..] == s;
    }
  }

  lemma {:induction false} SplitLastSep(s: string, c: char, isSep: char -> bool)
    requires isSep(c) && forall x :: x in s ==> !isSep(x)
    ensures Split(s + [c], isSep) == [s, ""]
  {
    var whole := s + [c];
    if s == "" {
      assert whole == [c] && whole[1..] == "";
    } else {
      assert whole[1..] == s[1..] + [c] && whole[0] == s[0] && s[0] in s;
      SplitLastSep(s[1..], c, isSep);
      assert [s[0]] + s[1..] == s;
    }
  }

  // ---------------------------------------------------------------------------
  // Which ids a member list can hold
  // ---------------------------------------------------------------------------

  /** No comma, no outer white space, and not both a plus and white space. */
  predicate Spellable(id: string) {
    id != "" && Trimmed(id) && ',' !in id && (Unspaced(id) || '+' !in id)
  }

  /** An argument whose member list is just this id: behind a comma, or else in brackets. */
  function Alone(id: string): string {
    if Unspaced(id) then id + "," else "[" + id + "]"
  }

  lemma OnlyOne(id: string)
    requires id != ""
    ensures NonEmpty([id]) == [id] && NonEmpty([id, ""]) == [id]
  {
    assert [id, ""][1..] == [""] && [""][1..] == [] && [id][1..] == [];
  }

  lemma BehindComma(id: string)
    requires id != "" && ',' !in id && Unspaced(id)
    ensures MemberList(id + ",") == [id]
  {
    var t := id + ",";
    TrimOfTrimmed(t);
    SplitLastSep(id, ',', WordSep);
    OnlyOne(id);
  }

  lemma PlainMember(id: string)
    requires id != "" && id[0] != '[' && ',' !in id && Unspaced(id)
    ensures MemberList(id) == [id]
  {
    TrimOfTrimmed(id);
    forall c | c in id
      ensures !WordSep(c)
    {
      var k :| 0 <= k < |id| && id[k] == c;
    }
    SplitWhole(id, WordSep);
    OnlyOne(id);
  }

  lemma InBrackets(id: string)
    requires id != "" && Trimmed(id) && ',' !in id && '+' !in id
    ensures MemberList("[" + id + "]") == [id]
  {
    var t := "[" + id + "]";
    TrimOfTrimmed(t);
    assert t[1..|t| - 1] == id;
    SplitWhole(id, ListSep);
    TrimOfTrimmed(id);
    assert TrimEach([id]) == [id];
    OnlyOne(id);
  }

  lemma AloneIsAlone(id: string)
    requires Spellable(id)
    ensures MemberList(Alone(id)) == [id]
  {
    if Unspaced(id) {
      BehindComma(id);
    } else {
      InBrackets(id);
    }
  }

  lemma InnerIsSpellable(inner: string, id: string)
    requires id in NonEmpty(TrimEach(Split(inner, ListSep)))
    ensures Spellable(id)
  {
    var pieces := Split(inner, ListSep);
    var k :| 0 <= k < |pieces| && TrimEach(pieces)[k] == id;
    SplitPieces(inner, ListSep);
    assert Piece(pieces[k], inner, ListSep);
    assert ',' !in pieces[k] && '+' !in pieces[k];
    TrimIsTrimmed(pieces[k]);
    TrimKeepsOut(pieces[k], ',');
    TrimKeepsOut(pieces[k], '+');
  }

  lemma OuterIsSpellable(t: string, id: string)
    requires id in NonEmpty(Split(t, WordSep))
    ensures Spellable(id)
  {
    var pieces := Split(t, WordSep);
    var k :| 0 <= k < |pieces| && pieces[k] == id;
    SplitPieces(t, WordSep);
    assert Piece(id, t, WordSep);
    forall j | 0 <= j < |id|
      ensures !IsSpace(id[j])
    {
      assert id[j] in id;
    }
  }

  /** Nothing else ever stands in a member list. */
  lemma MembersAreSpellable(raw: string)
    ensures forall id :: id in MemberList(raw) ==> Spellable(id)
  {
    var t := Trim(raw);
    forall id | id in MemberList(raw)
      ensures Spellable(id)
    {
      if Bracketed(t) {
        InnerIsSpellable(t[1..|t| - 1], id);
      } else {
        OuterIsSpellable(t, id);
      }
    }
  }

  /** So these are exactly the ids some argument can name. */
  lemma SpellableIff(id: string)
    ensures Spellable(id) <==> exists raw :: id in MemberList(raw)
  {
    if Spellable(id) {
      AloneIsAlone(id);
      assert id in MemberList(Alone(id));
    }
    if raw: string :| id in MemberList(raw) {
      MembersAreSpellable(raw);
    }
  }

  // ---------------------------------------------------------------------------
  // Lists are read as they are written
  // ---------------------------------------------------------------------------

  /** The parts with a separator between every two. */
  function JoinWith(parts: seq<string>, sep: char): string {
    if parts == [] then ""
    else if |parts| == 1 then parts[0]
    else parts[0] + [sep] + JoinWith(parts[1..], sep)
  }

  lemma {:induction false} SplitAt(a: string, c: char, b: string, isSep: char -> bool)
    requires isSep(c) && forall x :: x in a ==> !isSep(x)
    ensures Split(a + [c] + b, isSep) == [a] + Split(b, isSep)
    decreases |a|
  {
    var whole := a + [c] + b;
    if a == "" {
      assert whole == [c] + b && whole[1..] == b;
    } else {
      assert whole[1..] == a[1..] + [c] + b && whole[0] == a[0] && a[0] in a;
      SplitAt(a[1..], c, b, isSep);
      var rest := Split(whole[1..], isSep);
      assert [a[0]] + a[1..] == a;
      assert rest[0] == a[1..] && rest[1..] == Split(b, isSep);
    }
  }

  /** Splitting undoes joining. */
  lemma {:induction false} SplitUndoesJoin(parts: seq<string>, sep: char, isSep: char -> bool)
    requires parts != [] && isSep(sep) && forall k, c :: 0 <= k < |parts| && c in parts[k] ==> !isSep(c)
    ensures Split(JoinWith(parts, sep), isSep) == parts
    decreases |parts|
  {
    if |parts| == 1 {
      SplitWhole(parts[0], isSep);
    } else {
      SplitUndoesJoin(parts[1..], sep, isSep);
      SplitAt(parts[0], sep, JoinWith(parts[1..], sep), isSep);
      assert [parts[0]] + parts[1..] == parts;
    }
  }

  lemma {:induction false} NonEmptyAll(parts: seq<string>)
    requires forall k :: 0 <= k < |parts| ==> parts[k] != ""
    ensures NonEmpty(parts) == parts
  {
    if parts != [] {
      NonEmptyAll(parts[1..]);
      assert [parts[0]] + parts[1..] == parts;
    }
  }

  lemma TrimEachTrimmed(parts: seq<string>)
    requires forall k :: 0 <= k < |parts| ==> Trimmed(parts[k])
    ensures TrimEach(parts) == parts
  {
    forall k | 0 <= k < |parts|
      ensures TrimEach(parts)[k] == parts[k]
    {
      TrimOfTrimmed(parts[k]);
    }
  }

  predicate Listed(id: string, isSep: char -> bool) {
    id != "" && Trimmed(id) && forall c :: c in id ==> !isSep(c)
  }

  /** In brackets both the comma and the plus part a list, and blanks inside an id belong to it. */
  lemma BracketListReads(ids: seq<string>, sep: char)
    requires (sep == ',' || sep == '+') && forall k :: 0 <= k < |ids| ==> Listed(ids[k], ListSep)
    ensures MemberList("[" + JoinWith(ids, sep) + "]") == ids
  {
    var inner := JoinWith(ids, sep);
    var t := "[" + inner + "]";
    TrimOfTrimmed(t);
    assert t[1..|t| - 1] == inner;
    if ids == [] {
      assert Split("", ListSep) == [""] && TrimEach([""]) == [Trim("")] && Trim("") == "";
      assert NonEmpty([""]) == NonEmpty([""][1..]) && [""][1..] == [];
    } else {
      SplitUndoesJoin(ids, sep, ListSep);
      TrimEachTrimmed(ids);
      NonEmptyAll(ids);
    }
  }

  lemma {:induction false} JoinEnds(parts: seq<string>, sep: char)
    requires parts != [] && forall k :: 0 <= k < |parts| ==> parts[k] != ""
    ensures var s := JoinWith(parts, sep);
            s != "" && s[0] == parts[0][0] && s[|s| - 1] == parts[|parts| - 1][|parts[|parts| - 1]| - 1]
    decreases |parts|
  {
    if |parts| > 1 {
      JoinEnds(parts[1..], sep);
    }
  }

  /** Without brackets the comma and any white space do, and a plus belongs to the id. */
  lemma PlainListReads(ids: seq<string>, sep: char)
    requires WordSep(sep) && ids != [] && ids[0] != "" && ids[0][0] != '['
    requires forall k :: 0 <= k < |ids| ==> Listed(ids[k], WordSep)
    ensures MemberList(JoinWith(ids, sep)) == ids
  {
    var t := JoinWith(ids, sep);
    JoinEnds(ids, sep);
    TrimOfTrimmed(t);
    SplitUndoesJoin(ids, sep, WordSep);
    NonEmptyAll(ids);
  }
}
