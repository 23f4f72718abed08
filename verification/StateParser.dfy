/**
 The streaming parser for exported state.  The JSON deserializer is a library: it
 answers a value and the number of bytes it consumed, leading blanks included.
 Malformed input stops the program, which the model answers with `Panic`.
 */
module StateParser {
  import opened Basics

  const STATE_START: string := "{ \"state\": {"
  const ACCOUNT_SEP: string := ","
  const ADDR_SEP: string := ": "
  const STATE_END: string := "\n}}"

  datatype Account = Account(
    balance: string, nonce: string, code: Option<string>, storage: Option<seq<(string, string)>>)

  type Entry = (string, Account)

  datatype Deserializer = Deserializer(
    addr: string -> Option<(string, nat)>,
    account: string -> Option<(Account, nat)>)

  datatype ParsingState = First | Middle | End

  datatype Position = Position(src: string, state: ParsingState)

  datatype Parsed = Item(entry: Entry) | Finished | Panic

  datatype Advance = Advance(parsed: Parsed, at: Position)

  /** The rest of `s` after a literal, if `s` starts with it. */
  function AfterLiteral(s: string, literal: string): (r: Option<string>)
    ensures r.Some? <==> literal <= s
    ensures r.Some? ==> s == literal + r.value
  {
    if literal <= s then Some(s[|literal|..]) else None
  }

  /** Address, separator and account at the head of `s`. */
  function ParseEntry(de: Deserializer, s: string): (r: Option<(Entry, string)>)
    ensures r.Some? ==> |r.value.1| < |s|
  {
    match de.addr(s)
    case None => None
    case Some((addr, n)) =>
      if n > |s| then None
      else match AfterLiteral(s[n..], ADDR_SEP)
        case None => None
        case Some(rest) =>
          match de.account(rest)
          case None => None
          case Some((account, m)) => if m > |rest| then None else Some(((addr, account), rest[m..]))
  }

  /** One call of the iterator. */
  function NextEntry(de: Deserializer, p: Position): (r: Advance)
    ensures r.parsed.Item? ==> |r.at.src| < |p.src| && r.at.state == Middle
  {
    if p.state == End then Advance(Finished, p)
    else if |p.src| < |STATE_END| then Advance(Panic, p)
    else if STATE_END <= p.src then Advance(Finished, Position(p.src[|STATE_END|..], End))
    else
      var src := if p.state == Middle then AfterLiteral(p.src, ACCOUNT_SEP) else Some(p.src);
      match src
      case None => Advance(Panic, p)
      case Some(s) =>
        match ParseEntry(de, s)
        case None => Advance(Panic, p)
        case Some((entry, rest)) => Advance(Item(entry), Position(rest, Middle))
  }

  class Parser {
    const de: Deserializer
    var src: string
    var state: ParsingState

    /** The caller passes input that starts with the fixed prefix. */
    constructor (de: Deserializer, src: string)
      requires STATE_START <= src
      ensures this.de == de && this.src == src[|STATE_START|..] && state == First
    {
      this.de := de;
      this.src := src[|STATE_START|..];
      state := First;
    }

    method Next() returns (r: Parsed)
      modifies this
      ensures var n := NextEntry(de, Position(old(src), old(state)));
        r == n.parsed && (r != Panic ==> Position(src, state) == n.at)
    {
      if state == End {
        return Finished;
      }
      if |src| < |STATE_END| {
        return Panic;
      }
      if src[..|STATE_END|] == STATE_END {
        src := src[|STATE_END|..];
        state := End;
        return Finished;
      }
      if state == Middle {
        if src[..|ACCOUNT_SEP|] != ACCOUNT_SEP {
          return Panic;
        }
        src := src[|ACCOUNT_SEP|..];
      }
      ghost var s := src;
      var addr := de.addr(src);
      if addr.None? || addr.value.1 > |src| {
        return Panic;
      }
      src := src[addr.value.1..];
      if !(ADDR_SEP <= src) {
        return Panic;
      }
      src := src[|ADDR_SEP|..];
      var account := de.account(src);
      if account.None? || account.value.1 > |src| {
        return Panic;
      }
      src := src[account.value.1..];
      state := Middle;
      r := Item((addr.value.0, account.value.0));
      assert ParseEntry(de, s) == Some(((addr.value.0, account.value.0), src));
    }
  }

  /** The entries an iteration yields and where it ends; `None` if it panics. */
  function ParseAll(de: Deserializer, p: Position): Option<(seq<Entry>, Position)>
    decreases |p.src|
  {
    var n := NextEntry(de, p);
    match n.parsed
    case Panic => None
    case Finished => Some(([], n.at))
    case Item(entry) =>
      match ParseAll(de, n.at)
      case None => None
      case Some((rest, end)) => Some(([entry] + rest, end))
  }

  // ---------------------------------------------------------------- printing

  datatype Printer = Printer(addr: string -> string, account: Account -> string)

  /** A printed entry delimits itself: followed by anything, the deserializer reads
      its two items back and stops at their ends. */
  ghost predicate ReadsBack(de: Deserializer, pr: Printer, e: Entry) {
    && (forall rest :: de.addr("\n" + pr.addr(e.0) + rest) == Some((e.0, 1 + |pr.addr(e.0)|)))
    && |pr.addr(e.0)| > 0 && pr.addr(e.0)[0] == '\"'
    && (forall rest :: de.account(pr.account(e.1) + rest) == Some((e.1, |pr.account(e.1)|)))
  }

  ghost predicate AllReadBack(de: Deserializer, pr: Printer, entries: seq<Entry>) {
    forall e :: e in entries ==> ReadsBack(de, pr, e)
  }

  function PrintEntry(pr: Printer, e: Entry): string {
    "\n" + pr.addr(e.0) + ADDR_SEP + pr.account(e.1)
  }

  /** The entries after the first one, each behind its separator, and the end. */
  function PrintRest(pr: Printer, entries: seq<Entry>): string {
    if entries == [] then STATE_END
    else ACCOUNT_SEP + PrintEntry(pr, entries[0]) + PrintRest(pr, entries[1..])
  }

  function Print(pr: Printer, entries: seq<Entry>): string {
    STATE_START + if entries == [] then STATE_END else PrintEntry(pr, entries[0]) + PrintRest(pr, entries[1..])
  }

  lemma {:induction false} EntryLayout(a: string, x: string, rest: string)
    ensures var tail := ADDR_SEP + (x + rest);
      && "\n" + a + ADDR_SEP + x + rest == "\n" + a + tail
      && ("\n" + a + tail)[1 + |a|..] == tail
      && tail[|ADDR_SEP|..] == x + rest
      && (x + rest)[|x|..] == rest
  {
    var head, tail := "\n" + a, ADDR_SEP + (x + rest);
    assert |head| == 1 + |a| && (head + tail)[|head|..] == tail;
  }

  lemma {:induction false} EntryReadsBack(de: Deserializer, pr: Printer, e: Entry, rest: string)
    requires ReadsBack(de, pr, e)
    ensures ParseEntry(de, PrintEntry(pr, e) + rest) == Some((e, rest))
  {
    var a, x := pr.addr(e.0), pr.account(e.1);
    var tail := ADDR_SEP + (x + rest);
    EntryLayout(a, x, rest);
    var s := "\n" + a + tail;
    assert de.addr(s) == Some((e.0, 1 + |a|));
    assert AfterLiteral(s[1 + |a|..], ADDR_SEP) == Some(x + rest);
    assert de.account(x + rest) == Some((e.1, |x|));
  }

  lemma {:induction false} EntryIsNotEnd(de: Deserializer, pr: Printer, e: Entry, rest: string)
    requires ReadsBack(de, pr, e)
    ensures var s := PrintEntry(pr, e) + rest; |s| >= |STATE_END| && s[0] == '\n' && !(STATE_END <= s)
  {
    var s := PrintEntry(pr, e) + rest;
    assert s[1] == pr.addr(e.0)[0];
    assert STATE_END[1] == '}';
  }

  lemma {:induction false} SeparatedEntryReadsBack(de: Deserializer, pr: Printer, e: Entry, rest: string)
    requires ReadsBack(de, pr, e)
    ensures NextEntry(de, Position(ACCOUNT_SEP + (PrintEntry(pr, e) + rest), Middle)) ==
      Advance(Item(e), Position(rest, Middle))
  {
    var s := ACCOUNT_SEP + (PrintEntry(pr, e) + rest);
    assert s[0] == ',' && STATE_END[0] == '\n';
    EntryIsNotEnd(de, pr, e, rest);
    EntryReadsBack(de, pr, e, rest);
    assert s[|ACCOUNT_SEP|..] == PrintEntry(pr, e) + rest;
  }

  lemma {:induction false} RestReadsBack(de: Deserializer, pr: Printer, entries: seq<Entry>, trailing: string)
    requires AllReadBack(de, pr, entries)
    ensures ParseAll(de, Position(PrintRest(pr, entries) + trailing, Middle)) ==
      Some((entries, Position(trailing, End)))
    decreases |entries|
  {
    var s := PrintRest(pr, entries) + trailing;
    if entries == [] {
      assert s[|STATE_END|..] == trailing;
    } else {
      var e, rest := entries[0], PrintRest(pr, entries[1..]) + trailing;
      assert e in entries && forall x :: x in entries[1..] ==> x in entries;
      assert s == ACCOUNT_SEP + (PrintEntry(pr, e) + rest);
      SeparatedEntryReadsBack(de, pr, e, rest);
      RestReadsBack(de, pr, entries[1..], trailing);
      assert entries == [e] + entries[1..];
    }
  }

  /** The parser undoes the printer: it yields exactly the printed list and leaves
      exactly what followed it. */
  lemma {:induction false} ParserUndoesPrinter(de: Deserializer, pr: Printer, entries: seq<Entry>, trailing: string)
    requires AllReadBack(de, pr, entries)
    ensures var src := Print(pr, entries) + trailing;
      && STATE_START <= src
      && ParseAll(de, Position(src[|STATE_START|..], First)) == Some((entries, Position(trailing, End)))
  {
    var src := Print(pr, entries) + trailing;
    var s := src[|STATE_START|..];
    if entries == [] {
      assert s == STATE_END + trailing;
      assert s[|STATE_END|..] == trailing;
    } else {
      var e, rest := entries[0], PrintRest(pr, entries[1..]) + trailing;
      assert e in entries && forall x :: x in entries[1..] ==> x in entries;
      assert s == PrintEntry(pr, e) + rest;
      EntryIsNotEnd(de, pr, e, rest);
      EntryReadsBack(de, pr, e, rest);
      RestReadsBack(de, pr, entries[1..], trailing);
      assert entries == [e] + entries[1..];
    }
  }

  /** Distinct lists never print alike. */
  lemma {:induction false} PrinterIsInjective(de: Deserializer, pr: Printer, x: seq<Entry>, y: seq<Entry>)
    requires AllReadBack(de, pr, x) && AllReadBack(de, pr, y) && Print(pr, x) == Print(pr, y)
    ensures x == y
  {
    ParserUndoesPrinter(de, pr, x, "");
    ParserUndoesPrinter(de, pr, y, "");
  }

  /** After the end the iterator stays at its end. */
  lemma {:induction false} FinishedStaysFinished(de: Deserializer, p: Position)
    requires NextEntry(de, p).parsed == Finished
    ensures NextEntry(de, NextEntry(de, p).at) == Advance(Finished, NextEntry(de, p).at)
  {
  }

  // ------------------------------------------------- which inputs are accepted

  /** The text of one entry: what stands for its address and for its account. */
  datatype Piece = Piece(addr: string, account: string)

  function Joined(pieces: seq<Piece>, state: ParsingState): string {
    if pieces == [] then STATE_END
    else
      (if state == Middle then ACCOUNT_SEP else "")
      + (pieces[0].addr + ADDR_SEP + pieces[0].account) + Joined(pieces[1..], Middle)
  }

  /** A text that consists of entries, separated and closed as exported state is, and that
      the deserializer reads piece by piece. */
  ghost predicate Reads(
      de: Deserializer, src: string, state: ParsingState, pieces: seq<Piece>, entries: seq<Entry>, trailing: string)
    decreases |pieces|
  {
    && |pieces| == |entries|
    && src == Joined(pieces, state) + trailing
    && (pieces != [] ==>
          var rest := Joined(pieces[1..], Middle) + trailing;
          var p := pieces[0];
          && !(STATE_END <= src)
          && de.addr(p.addr + ADDR_SEP + p.account + rest) == Some((entries[0].0, |p.addr|))
          && de.account(p.account + rest) == Some((entries[0].1, |p.account|))
          && Reads(de, rest, Middle, pieces[1..], entries[1..], trailing))
  }

  lemma {:induction false} PieceIsRead(de: Deserializer, p: Piece, e: Entry, rest: string)
    requires de.addr(p.addr + ADDR_SEP + p.account + rest) == Some((e.0, |p.addr|))
    requires de.account(p.account + rest) == Some((e.1, |p.account|))
    ensures ParseEntry(de, p.addr + ADDR_SEP + p.account + rest) == Some((e, rest))
  {
    var s := p.addr + ADDR_SEP + p.account + rest;
    assert s[|p.addr|..] == ADDR_SEP + (p.account + rest);
    assert (ADDR_SEP + (p.account + rest))[|ADDR_SEP|..] == p.account + rest;
    assert (p.account + rest)[|p.account|..] == rest;
  }

  lemma {:induction false} JoinedEnds(pieces: seq<Piece>, state: ParsingState)
    ensures |Joined(pieces, state)| >= |STATE_END|
    decreases |pieces|
  {
    if pieces != [] {
      JoinedEnds(pieces[1..], Middle);
    }
  }

  lemma {:induction false} ReadStep(
      de: Deserializer, src: string, state: ParsingState, p: Piece, e: Entry, rest: string)
    requires state != End && |src| >= |STATE_END| && !(STATE_END <= src)
    requires src == (if state == Middle then ACCOUNT_SEP else "") + (p.addr + ADDR_SEP + p.account + rest)
    requires de.addr(p.addr + ADDR_SEP + p.account + rest) == Some((e.0, |p.addr|))
    requires de.account(p.account + rest) == Some((e.1, |p.account|))
    ensures NextEntry(de, Position(src, state)) == Advance(Item(e), Position(rest, Middle))
  {
    var s := p.addr + ADDR_SEP + p.account + rest;
    PieceIsRead(de, p, e, rest);
    if state == Middle {
      assert src[|ACCOUNT_SEP|..] == s;
    } else {
      assert src == s;
    }
  }

  lemma {:induction false} ReadsHead(
      de: Deserializer, src: string, state: ParsingState, pieces: seq<Piece>, entries: seq<Entry>, trailing: string)
    requires state != End && pieces != [] && Reads(de, src, state, pieces, entries, trailing)
    ensures var rest := Joined(pieces[1..], Middle) + trailing;
      && NextEntry(de, Position(src, state)) == Advance(Item(entries[0]), Position(rest, Middle))
      && Reads(de, rest, Middle, pieces[1..], entries[1..], trailing)
  {
    var joined, p := Joined(pieces[1..], Middle), pieces[0];
    var sep, text := if state == Middle then ACCOUNT_SEP else "", p.addr + ADDR_SEP + p.account;
    JoinedEnds(pieces, state);
    assert Joined(pieces, state) == sep + text + joined;
    assert (sep + text + joined) + trailing == sep + (text + (joined + trailing));
    ReadStep(de, src, state, p, entries[0], joined + trailing);
  }

  lemma {:induction false} ParseAllStep(de: Deserializer, p: Position, entries: seq<Entry>, at: Position, end: Position)
    requires entries != [] && NextEntry(de, p) == Advance(Item(entries[0]), at)
    requires ParseAll(de, at) == Some((entries[1..], end))
    ensures ParseAll(de, p) == Some((entries, end))
  {
    assert entries == [entries[0]] + entries[1..];
  }

  /** Well-formed text is parsed to its entries. */
  lemma {:induction false} WellFormedIsParsed(
      de: Deserializer, src: string, state: ParsingState, pieces: seq<Piece>, entries: seq<Entry>, trailing: string)
    requires state != End && Reads(de, src, state, pieces, entries, trailing)
    ensures ParseAll(de, Position(src, state)) == Some((entries, Position(trailing, End)))
    decreases |pieces|
  {
    if pieces == [] {
      assert src[|STATE_END|..] == trailing;
    } else {
      var rest := Joined(pieces[1..], Middle) + trailing;
      ReadsHead(de, src, state, pieces, entries, trailing);
      WellFormedIsParsed(de, rest, Middle, pieces[1..], entries[1..], trailing);
      ParseAllStep(de, Position(src, state), entries, Position(rest, Middle), Position(trailing, End));
    }
  }

  lemma {:induction false} PieceOf(de: Deserializer, s: string) returns (p: Piece)
    requires ParseEntry(de, s).Some?
    ensures var (e, rest) := ParseEntry(de, s).value;
      && s == p.addr + ADDR_SEP + p.account + rest
      && de.addr(s) == Some((e.0, |p.addr|))
      && de.account(p.account + rest) == Some((e.1, |p.account|))
  {
    var n := de.addr(s).value.1;
    var after := s[n..][|ADDR_SEP|..];
    var m := de.account(after).value.1;
    p := Piece(s[..n], after[..m]);
    assert s[n..] == ADDR_SEP + after && after == after[..m] + after[m..];
    assert s == s[..n] + s[n..];
  }

  lemma {:induction false} ReadsFirst(
      de: Deserializer, src: string, state: ParsingState, p: Piece, e: Entry, rest: string,
      more: seq<Piece>, entries: seq<Entry>, trailing: string)
    requires !(STATE_END <= src) && Reads(de, rest, Middle, more, entries, trailing)
    requires src == (if state == Middle then ACCOUNT_SEP else "") + (p.addr + ADDR_SEP + p.account + rest)
    requires de.addr(p.addr + ADDR_SEP + p.account + rest) == Some((e.0, |p.addr|))
    requires de.account(p.account + rest) == Some((e.1, |p.account|))
    ensures Reads(de, src, state, [p] + more, [e] + entries, trailing)
  {
    var sep, text := if state == Middle then ACCOUNT_SEP else "", p.addr + ADDR_SEP + p.account;
    assert ([p] + more)[1..] == more && ([e] + entries)[1..] == entries;
    assert rest == Joined(more, Middle) + trailing;
    assert Joined([p] + more, state) == sep + text + Joined(more, Middle);
    assert sep + (text + rest) == (sep + text + Joined(more, Middle)) + trailing;
  }

  lemma {:induction false} ItemIsPiece(de: Deserializer, src: string, state: ParsingState) returns (p: Piece)
    requires state != End && NextEntry(de, Position(src, state)).parsed.Item?
    ensures var n := NextEntry(de, Position(src, state));
      var e, rest := n.parsed.entry, n.at.src;
      && n.at.state == Middle && !(STATE_END <= src)
      && src == (if state == Middle then ACCOUNT_SEP else "") + (p.addr + ADDR_SEP + p.account + rest)
      && de.addr(p.addr + ADDR_SEP + p.account + rest) == Some((e.0, |p.addr|))
      && de.account(p.account + rest) == Some((e.1, |p.account|))
  {
    var s := if state == Middle then src[|ACCOUNT_SEP|..] else src;
    p := PieceOf(de, s);
    assert src == (if state == Middle then ACCOUNT_SEP else "") + s;
  }

  /** Whatever is parsed is well-formed text of those entries. */
  lemma {:induction false} ParsedIsWellFormed(de: Deserializer, src: string, state: ParsingState)
    returns (pieces: seq<Piece>)
    requires state != End && ParseAll(de, Position(src, state)).Some?
    ensures var (entries, end) := ParseAll(de, Position(src, state)).value;
      end.state == End && Reads(de, src, state, pieces, entries, end.src)
    decreases |src|
  {
    var n := NextEntry(de, Position(src, state));
    if n.parsed == Finished {
      pieces := [];
    } else {
      var p := ItemIsPiece(de, src, state);
      var more := ParsedIsWellFormed(de, n.at.src, Middle);
      var (rest, end) := ParseAll(de, n.at).value;
      ReadsFirst(de, src, state, p, n.parsed.entry, n.at.src, more, rest, end.src);
      pieces := [p] + more;
    }
  }

  ghost predicate WellFormed(de: Deserializer, src: string, entries: seq<Entry>, trailing: string) {
    exists pieces :: Reads(de, src, First, pieces, entries, trailing)
  }

  lemma {:induction false} WellFormedParses(de: Deserializer, src: string, entries: seq<Entry>, trailing: string)
    requires WellFormed(de, src, entries, trailing)
    ensures ParseAll(de, Position(src, First)) == Some((entries, Position(trailing, End)))
  {
    var pieces :| Reads(de, src, First, pieces, entries, trailing);
    WellFormedIsParsed(de, src, First, pieces, entries, trailing);
  }

  /** The parser answers entries iff the input is well-formed text of them; on any other
      input it stops the program. */
  lemma {:induction false} ParsesIffWellFormed(de: Deserializer, src: string, entries: seq<Entry>, trailing: string)
    ensures ParseAll(de, Position(src, First)) == Some((entries, Position(trailing, End))) <==>
      WellFormed(de, src, entries, trailing)
    ensures ParseAll(de, Position(src, First)).Some? ==> ParseAll(de, Position(src, First)).value.1.state == End
  {
    if ParseAll(de, Position(src, First)).Some? {
      var found := ParsedIsWellFormed(de, src, First);
      var (read, end) := ParseAll(de, Position(src, First)).value;
      assert WellFormed(de, src, read, end.src);
    }
    if WellFormed(de, src, entries, trailing) {
      WellFormedParses(de, src, entries, trailing);
    }
  }

  // ------------------------------------------------------------- consistency

  const PLAIN_ACCOUNT: Account := Account("0x0", "0x0", None, None)

  /** Reads and prints one address and one account. */
  const PLAIN_DESERIALIZER: Deserializer := Deserializer(
    (s: string) => if "\n\"0x0\"" <= s then Some(("0x0", 6)) else None,
    (s: string) => if "{}" <= s then Some((PLAIN_ACCOUNT, 2)) else None)

  const PLAIN_PRINTER: Printer := Printer(_ => "\"0x0\"", _ => "{}")

  /** The law assumed of the deserializer can be met. */
  lemma {:induction false} PlainEntriesReadBack(entries: seq<Entry>)
    requires forall e :: e in entries ==> e == ("0x0", PLAIN_ACCOUNT)
    ensures AllReadBack(PLAIN_DESERIALIZER, PLAIN_PRINTER, entries)
  {
    forall rest: string ensures "\n\"0x0\"" <= "\n" + "\"0x0\"" + rest && "{}" <= "{}" + rest {
      assert "\n" + "\"0x0\"" + rest == "\n\"0x0\"" + rest;
    }
  }
}
