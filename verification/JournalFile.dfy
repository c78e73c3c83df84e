/** One monthly journal file byte by byte: appends that a crash may cut anywhere, the
    repair of a torn tail, and the line reader. */
module JournalFiles {
  import opened Wrappers
  import opened Journal

  newtype byte = b: int | 0 <= b < 256

  type Bytes = seq<byte>

  const NEWLINE: byte := 10
  const WINDOW: nat := 65536

  // Whitespace bytes.TrimSpace strips, for single-byte characters.
  predicate IsSpace(b: byte) {
    9 <= b <= 13 || b == 32
  }

  predicate Blank(line: Bytes) {
    forall i :: 0 <= i < |line| ==> IsSpace(line[i])
  }

  // How records become lines: JSON with its checksum on one side, JSON and checksum
  // verification on the other.
  datatype Codec = Codec(enc: Record -> Bytes, dec: Bytes -> Option<Record>) {
    ghost predicate Valid() {
      forall r: Record :: Sound(r)
    }

    // What is written reads back, on one line that is not blank.
    ghost predicate Sound(r: Record) {
      dec(enc(r)) == Some(r) && NoNewline(enc(r)) && !Blank(enc(r))
    }

    // A line cut short, with another line written behind it, reads as no record.
    ghost predicate NoSplice() {
      forall r: Record, next: Record, k: nat :: Torn(r, next, k)
    }

    ghost predicate Torn(r: Record, next: Record, k: nat) {
      0 < k <= |enc(r)| ==> dec(enc(r)[..k] + enc(next)).None?
    }

    function Line(r: Record): Bytes { enc(r) + [NEWLINE] }
  }

  // ---- reading ----

  function IndexOf(b: Bytes, x: byte): (i: int)
    ensures -1 <= i < |b|
    ensures i >= 0 ==> b[i] == x && forall j :: 0 <= j < i ==> b[j] != x
    ensures i < 0 ==> forall j :: 0 <= j < |b| ==> b[j] != x
  {
    if b == [] then -1
    else if b[0] == x then 0
    else
      var i := IndexOf(b[1..], x);
      if i < 0 then -1 else i + 1
  }

  predicate NoNewline(b: Bytes) {
    forall i :: 0 <= i < |b| ==> b[i] != NEWLINE
  }

  // The lines of a file without their newlines; a last line may lack its newline.
  function Lines(b: Bytes): seq<Bytes>
    decreases |b|
  {
    if b == [] then []
    else
      var i := IndexOf(b, NEWLINE);
      if i < 0 then [b] else [b[..i]] + Lines(b[i+1..])
  }

  // What one line contributes: blank lines nothing, others a record or a corruption.
  function RecordOf(c: Codec, line: Bytes): seq<Record> {
    if !Blank(line) && c.dec(line).Some? then [c.dec(line).value] else []
  }

  function BadLine(c: Codec, line: Bytes): nat {
    if !Blank(line) && c.dec(line).None? then 1 else 0
  }

  function Decoded(c: Codec, lines: seq<Bytes>): seq<Record> {
    if lines == [] then [] else RecordOf(c, lines[0]) + Decoded(c, lines[1..])
  }

  function Corrupt(c: Codec, lines: seq<Bytes>): nat {
    if lines == [] then 0 else BadLine(c, lines[0]) + Corrupt(c, lines[1..])
  }

  // A line is passed over exactly when it holds nothing but tabs, line breaks and blanks;
  // any other is a record or counts as corrupt.
  lemma PassedOver(c: Codec, line: Bytes)
    ensures RecordOf(c, line) == [] && BadLine(c, line) == 0 <==>
            forall i :: 0 <= i < |line| ==> line[i] in {9, 10, 11, 12, 13, 32}
    ensures |RecordOf(c, line)| + BadLine(c, line) <= 1
    ensures forall r :: r in RecordOf(c, line) ==> c.dec(line) == Some(r)
  {}

  method ReadRecords(c: Codec, bytes: Bytes) returns (recs: seq<Record>, corrupt: nat)
    ensures recs == Decoded(c, Lines(bytes)) && corrupt == Corrupt(c, Lines(bytes))
  {
    recs, corrupt := [], 0;
    var rest := bytes;
    while rest != []
      invariant recs + Decoded(c, Lines(rest)) == Decoded(c, Lines(bytes))
      invariant corrupt + Corrupt(c, Lines(rest)) == Corrupt(c, Lines(bytes))
      decreases |rest|
    {
      var i := IndexOf(rest, NEWLINE);
      var content := if i < 0 then rest else rest[..i];
      var next := if i < 0 then [] else rest[i+1..];
      FirstLine(c, recs, rest, content, next);
      var more, bad := ReadLine(c, content);
      recs, corrupt := recs + more, corrupt + bad;
      rest := next;
    }
    assert Decoded(c, Lines([])) == [];
    assert recs + [] == recs;
  }

  method ReadLine(c: Codec, content: Bytes) returns (recs: seq<Record>, bad: nat)
    ensures recs == RecordOf(c, content) && bad == BadLine(c, content)
  {
    recs, bad := [], 0;
    if !Blank(content) {
      match c.dec(content) {
        case None => bad := 1;
        case Some(r) => recs := [r];
      }
    }
  }

  lemma PartsAssoc<T>(a: seq<T>, b: seq<T>, c: seq<T>)
    ensures a + (b + c) == (a + b) + c
  {}

  ghost predicate Splits(b: Bytes, content: Bytes, next: Bytes) {
    b != [] &&
    var i := IndexOf(b, NEWLINE);
    content == (if i < 0 then b else b[..i]) && next == (if i < 0 then [] else b[i+1..])
  }

  lemma LinesHead(b: Bytes, content: Bytes, next: Bytes)
    requires Splits(b, content, next)
    ensures Lines(b) == [content] + Lines(next)
  {}

  lemma FirstLine(c: Codec, recs: seq<Record>, b: Bytes, content: Bytes, next: Bytes)
    requires Splits(b, content, next)
    ensures recs + Decoded(c, Lines(b)) == (recs + RecordOf(c, content)) + Decoded(c, Lines(next))
    ensures Corrupt(c, Lines(b)) == BadLine(c, content) + Corrupt(c, Lines(next))
  {
    LinesHead(b, content, next);
    HeadLine(c, content, Lines(next));
    PartsAssoc(recs, RecordOf(c, content), Decoded(c, Lines(next)));
  }

  lemma HeadLine(c: Codec, content: Bytes, rest: seq<Bytes>)
    ensures Decoded(c, [content] + rest) == RecordOf(c, content) + Decoded(c, rest)
    ensures Corrupt(c, [content] + rest) == BadLine(c, content) + Corrupt(c, rest)
  {
    assert ([content] + rest)[1..] == rest;
  }

  // ---- the torn tail ----

  predicate Clean(b: Bytes) {
    b == [] || b[|b|-1] == NEWLINE
  }

  // The last n bytes hold no newline, and are all there is or follow one.
  predicate TailIs(b: Bytes, n: nat) {
    && n <= |b|
    && (n == |b| || b[|b|-n-1] == NEWLINE)
    && forall j :: |b| - n <= j < |b| ==> b[j] != NEWLINE
  }

  // How many bytes follow the last newline.
  function TornLength(b: Bytes): (n: nat)
    ensures TailIs(b, n)
  {
    if Clean(b) then 0 else TornLength(b[..|b|-1]) + 1
  }

  // A torn tail can be bounded when it starts inside the last window of the file, or
  // the window covers the whole file.
  predicate Repairable(b: Bytes) {
    TornLength(b) < WINDOW || |b| <= WINDOW
  }

  function Repaired(b: Bytes): Bytes {
    if Repairable(b) then b[..|b|-TornLength(b)] else b
  }

  lemma TailUnique(b: Bytes, n: nat)
    requires TailIs(b, n)
    ensures TornLength(b) == n
  {}

  lemma RepairIsIdempotent(b: Bytes)
    ensures Repaired(Repaired(b)) == Repaired(b)
    ensures Clean(Repaired(b)) <==> Repairable(b)
  {
    if Repairable(b) {
      TailUnique(Repaired(b), 0);
    } else {
      assert TailIs(b, TornLength(b));
    }
  }

  // The last 65536 bytes hold a newline, or are the whole file.
  predicate Bounded(b: Bytes) {
    |b| <= 65536 || exists i :: |b| - 65536 <= i < |b| && b[i] == 10
  }

  // Repair cuts the file back to its last newline when that is near enough, and leaves it
  // alone otherwise.
  lemma RepairedExactly(b: Bytes)
    ensures Repaired(b) <= b && forall i :: |Repaired(b)| <= i < |b| ==> b[i] != 10
    ensures if Bounded(b) then Repaired(b) == [] || Repaired(b)[|Repaired(b)|-1] == 10 else Repaired(b) == b
  {
    assert TailIs(b, TornLength(b));
    if TornLength(b) < |b| {
      assert b[|b|-TornLength(b)-1] == 10;
    }
  }

  class File {
    var bytes: Bytes
    var sidecar: Bytes
    var repairs: seq<nat>

    constructor (bytes: Bytes)
      ensures this.bytes == bytes && sidecar == [] && repairs == []
    {
      this.bytes, sidecar, repairs := bytes, [], [];
    }

    // Writes at most `cut` bytes of the line: all of them unless the process dies or
    // the write fails on the way.
    method Append(c: Codec, r: Record, cut: nat) returns (ok: bool)
      modifies this`bytes
      ensures ok <==> cut >= |c.Line(r)|
      ensures bytes == old(bytes) + (if ok then c.Line(r) else c.Line(r)[..cut])
      ensures ok ==> bytes == old(bytes) + c.enc(r) + [10]
    {
      var line := c.enc(r);
      line := line + [NEWLINE];
      ok := cut >= |line|;
      bytes := bytes + (if ok then line else line[..cut]);
    }

    method LastIndexByte(buf: Bytes, x: byte) returns (i: int)
      ensures -1 <= i < |buf|
      ensures i >= 0 ==> buf[i] == x
      ensures forall j :: i < j < |buf| ==> buf[j] != x
    {
      i := |buf| - 1;
      while i >= 0 && buf[i] != x
        invariant -1 <= i < |buf|
        invariant forall j :: i < j < |buf| ==> buf[j] != x
      {
        i := i - 1;
      }
    }

    // Moves the bytes after the last newline to the sidecar, under a header line, before
    // cutting them off; nothing is lost, and a tail that cannot be bounded is left alone.
    method RepairTornTail(header: Bytes) returns (torn: Bytes)
      modifies this
      ensures bytes == Repaired(old(bytes)) && bytes + torn == old(bytes)
      ensures forall i :: 0 <= i < |torn| ==> torn[i] != 10
      ensures if Bounded(old(bytes)) then bytes == [] || bytes[|bytes|-1] == 10 else bytes == old(bytes)
      ensures sidecar == old(sidecar) + (if torn == [] then [] else header + torn + [NEWLINE])
      ensures repairs == old(repairs) + (if torn == [] then [] else [|torn|])
    {
      torn := [];
      RepairedExactly(bytes);
      var size := |bytes|;
      if size == 0 {
        return;
      }
      var from := if size > WINDOW then size - WINDOW else 0;
      var buf := bytes[from..];
      if buf[|buf|-1] == NEWLINE {
        TailUnique(bytes, 0);
        return;
      }
      var idx := LastIndexByte(buf, NEWLINE);
      WindowView(bytes, from, idx);
      var truncateAt: nat;
      if idx >= 0 {
        truncateAt := from + idx + 1;
      } else if from == 0 {
        truncateAt := 0;
      } else {
        return;
      }
      torn := bytes[truncateAt..];
      sidecar := sidecar + (header + torn + [NEWLINE]);
      bytes := bytes[..truncateAt];
      repairs := repairs + [|torn|];
    }
  }

  // What the last newline inside the window says about the whole file.
  lemma WindowView(b: Bytes, from: nat, idx: int)
    requires from < |b| && -1 <= idx < |b| - from && (from == 0 || from == |b| - WINDOW)
    requires idx >= 0 ==> b[from + idx] == NEWLINE
    requires forall j :: from + idx < j < |b| ==> b[j] != NEWLINE
    ensures idx >= 0 || from == 0 ==> TornLength(b) == |b| - (from + idx + 1)
    ensures idx < 0 && from > 0 ==> TornLength(b) >= WINDOW
  {
    if idx >= 0 || from == 0 {
      TailUnique(b, |b| - (from + idx + 1));
    } else {
      assert TailIs(b, TornLength(b));
    }
  }

  // ---- whole histories ----

  function Encoded(c: Codec, rs: seq<Record>): Bytes {
    if rs == [] then [] else Encoded(c, rs[..|rs|-1]) + c.Line(rs[|rs|-1])
  }

  lemma {:induction false} EncodedClean(c: Codec, rs: seq<Record>)
    ensures Clean(Encoded(c, rs))
  {}

  lemma SplitAtFirst(b: Bytes, i: nat)
    requires i < |b| && b[i] == NEWLINE && forall j :: 0 <= j < i ==> b[j] != NEWLINE
    ensures Lines(b) == [b[..i]] + Lines(b[i+1..])
  {
    FirstIndex(b, i);
  }

  lemma {:induction false} LinesAppend(b: Bytes, tail: Bytes)
    requires Clean(b)
    ensures Lines(b + tail) == Lines(b) + Lines(tail)
    decreases |b|
  {
    if b == [] {
      assert b + tail == tail;
    } else {
      assert b[|b|-1] == NEWLINE;
      var i: nat := IndexOf(b, NEWLINE);
      SplitAtFirst(b, i);
      AppendSplit(b, tail, i);
      CleanRest(b, i);
      LinesAppend(b[i+1..], tail);
      HeadAssoc(b[..i], Lines(b[i+1..]), Lines(tail));
    }
  }

  lemma CleanRest(b: Bytes, i: nat)
    requires Clean(b) && i < |b|
    ensures Clean(b[i+1..])
  {}

  lemma HeadAssoc<T>(x: T, a: seq<T>, b: seq<T>)
    ensures [x] + (a + b) == ([x] + a) + b
  {}

  lemma AppendSplit(b: Bytes, tail: Bytes, i: nat)
    requires i < |b| && b[i] == NEWLINE && forall j :: 0 <= j < i ==> b[j] != NEWLINE
    ensures Lines(b + tail) == [b[..i]] + Lines(b[i+1..] + tail)
  {
    SplitAtFirst(b + tail, i);
    assert (b + tail)[..i] == b[..i] && (b + tail)[i+1..] == b[i+1..] + tail;
  }

  lemma FirstIndex(b: Bytes, i: nat)
    requires i < |b| && b[i] == NEWLINE && forall j :: 0 <= j < i ==> b[j] != NEWLINE
    ensures IndexOf(b, NEWLINE) == i
  {}

  lemma {:induction false} DecodedAppend(c: Codec, a: seq<Bytes>, b: seq<Bytes>)
    ensures Decoded(c, a + b) == Decoded(c, a) + Decoded(c, b)
    ensures Corrupt(c, a + b) == Corrupt(c, a) + Corrupt(c, b)
  {
    if a == [] {
      assert a + b == b;
    } else {
      assert (a + b)[1..] == a[1..] + b;
      DecodedAppend(c, a[1..], b);
    }
  }

  lemma OneLine(x: Bytes)
    requires NoNewline(x)
    ensures Lines(x + [NEWLINE]) == [x]
    ensures x != [] ==> Lines(x) == [x]
  {
    FirstIndex(x + [NEWLINE], |x|);
    assert (x + [NEWLINE])[..|x|] == x && (x + [NEWLINE])[|x|+1..] == [];
  }

  lemma OneRecord(c: Codec, r: Record)
    requires c.Sound(r)
    ensures Decoded(c, Lines(c.Line(r))) == [r] && Corrupt(c, Lines(c.Line(r))) == 0
  {
    OneLine(c.enc(r));
    HeadLine(c, c.enc(r), []);
    assert [c.enc(r)] + [] == [c.enc(r)];
  }

  lemma AppendReads(c: Codec, b: Bytes, tail: Bytes)
    requires Clean(b)
    ensures Decoded(c, Lines(b + tail)) == Decoded(c, Lines(b)) + Decoded(c, Lines(tail))
    ensures Corrupt(c, Lines(b + tail)) == Corrupt(c, Lines(b)) + Corrupt(c, Lines(tail))
  {
    LinesAppend(b, tail);
    DecodedAppend(c, Lines(b), Lines(tail));
  }

  ghost predicate ReadsAs(c: Codec, b: Bytes, rs: seq<Record>) {
    Decoded(c, Lines(b)) == rs && Corrupt(c, Lines(b)) == 0
  }

  // A file of whole lines reads back as exactly the records written, nothing corrupt.
  lemma {:induction false} EncodedReadsBack(c: Codec, rs: seq<Record>)
    requires c.Valid()
    ensures ReadsAs(c, Encoded(c, rs), rs)
  {
    if rs != [] {
      var before, r := rs[..|rs|-1], rs[|rs|-1];
      EncodedReadsBack(c, before);
      EncodedClean(c, before);
      ValidSound(c, r);
      OneMoreReads(c, Encoded(c, before), before, r);
      assert before + [r] == rs;
    }
  }

  lemma ValidSound(c: Codec, r: Record)
    requires c.Valid()
    ensures c.Sound(r)
  {}

  lemma OneMoreReads(c: Codec, b: Bytes, rs: seq<Record>, r: Record)
    requires Clean(b) && c.Sound(r) && ReadsAs(c, b, rs)
    ensures ReadsAs(c, b + c.Line(r), rs + [r])
  {
    AppendReads(c, b, c.Line(r));
    OneRecord(c, r);
  }

  // One handle's life: appends that return, and crashes that cut an append after some
  // bytes, each followed by a reopen that repairs the tail.
  datatype Op = Append(r: Record) | CrashThenReopen(r: Record, cut: nat)

  function Apply(c: Codec, b: Bytes, op: Op): Bytes {
    match op
    case Append(r) => b + c.Line(r)
    case CrashThenReopen(r, cut) => Repaired(b + (if cut < |c.Line(r)| then c.Line(r)[..cut] else c.Line(r)))
  }

  function Run(c: Codec, ops: seq<Op>): Bytes {
    if ops == [] then [] else Apply(c, Run(c, ops[..|ops|-1]), ops[|ops|-1])
  }

  // The records a history leaves: every append that returned, and an interrupted one
  // exactly when its newline made it to the file.
  function Survivors(c: Codec, ops: seq<Op>): seq<Record> {
    if ops == [] then []
    else
      Survivors(c, ops[..|ops|-1]) +
      match ops[|ops|-1]
      case Append(r) => [r]
      case CrashThenReopen(r, cut) => if cut >= |c.Line(r)| then [r] else []
  }

  lemma TornLineRemoved(b: Bytes, torn: Bytes)
    requires Clean(b) && NoNewline(torn)
    ensures TornLength(b + torn) == |torn|
    ensures |torn| < WINDOW ==> Repaired(b + torn) == b
  {
    TailUnique(b + torn, |torn|);
    assert (b + torn)[..|b|] == b;
  }

  lemma {:induction false} HistoryIsEncoded(c: Codec, ops: seq<Op>)
    requires c.Valid() && forall i :: 0 <= i < |ops| ==> |c.Line(ops[i].r)| <= WINDOW
    ensures Run(c, ops) == Encoded(c, Survivors(c, ops))
  {
    if ops != [] {
      var before, op := ops[..|ops|-1], ops[|ops|-1];
      HistoryIsEncoded(c, before);
      var rs := Survivors(c, before);
      EncodedClean(c, rs);
      assert c.Sound(op.r);
      assert (rs + [op.r])[..|rs|] == rs;
      if op.CrashThenReopen? {
        if op.cut < |c.Line(op.r)| {
          var torn := c.Line(op.r)[..op.cut];
          assert torn == c.enc(op.r)[..op.cut];
          assert Survivors(c, ops) == rs + [] == rs;
          TornLineRemoved(Encoded(c, rs), torn);
        } else {
          TornLineRemoved(Encoded(c, rs + [op.r]), []);
          assert Encoded(c, rs + [op.r]) + [] == Encoded(c, rs + [op.r]);
        }
      }
    }
  }

  // After any number of crashes at any byte, what is read is exactly the appends that
  // returned plus the interrupted ones that were complete; nothing reads as corrupt.
  lemma HistoryReadsBack(c: Codec, ops: seq<Op>)
    requires c.Valid() && forall i :: 0 <= i < |ops| ==> |c.Line(ops[i].r)| <= WINDOW
    ensures Decoded(c, Lines(Run(c, ops))) == Survivors(c, ops)
    ensures Corrupt(c, Lines(Run(c, ops))) == 0
  {
    HistoryIsEncoded(c, ops);
    EncodedReadsBack(c, Survivors(c, ops));
  }

  lemma LastLineReads(c: Codec, rs: seq<Record>, line: Bytes)
    requires c.Valid() && NoNewline(line)
    ensures Decoded(c, Lines(Encoded(c, rs) + (line + [NEWLINE]))) == rs + RecordOf(c, line)
    ensures Corrupt(c, Lines(Encoded(c, rs) + (line + [NEWLINE]))) == BadLine(c, line)
  {
    EncodedClean(c, rs);
    EncodedReadsBack(c, rs);
    AppendReads(c, Encoded(c, rs), line + [NEWLINE]);
    OneLine(line);
    HeadLine(c, line, []);
    assert [line] + [] == [line];
  }

  lemma StaysNonBlank(a: Bytes, b: Bytes)
    requires !Blank(b)
    ensures !Blank(a + b)
  {
    var i :| 0 <= i < |b| && !IsSpace(b[i]);
    assert (a + b)[|a| + i] == b[i];
  }

  // What the line that a short write and the next append share reads as.
  lemma SplicedLine(c: Codec, r: Record, cut: nat, next: Record)
    requires c.Sound(r) && c.Sound(next) && c.NoSplice() && cut < |c.Line(r)|
    ensures var merged := c.Line(r)[..cut] + c.enc(next);
            && NoNewline(merged) && RecordOf(c, merged) == (if cut == 0 then [next] else [])
            && BadLine(c, merged) == if cut == 0 then 0 else 1
  {
    var torn := c.Line(r)[..cut];
    assert torn == c.enc(r)[..cut];
    assert cut == 0 ==> torn + c.enc(next) == c.enc(next);
    StaysNonBlank(torn, c.enc(next));
    assert c.Torn(r, next, cut);
  }

  lemma Regrouped(c: Codec, before: Bytes, torn: Bytes, next: Record, after: Bytes)
    ensures before + torn + c.Line(next) + after == (before + ((torn + c.enc(next)) + [NEWLINE])) + after
  {}

  // Without a reopen in between, an append that follows a write which stopped short ends
  // up on the same line: unless nothing had been written, its record is lost and exactly
  // one line is corrupt. Whatever is appended after that reads back.
  lemma AppendAfterShortWrite(c: Codec, rs: seq<Record>, r: Record, cut: nat, next: Record, later: seq<Record>)
    requires c.Valid() && c.NoSplice() && cut < |c.Line(r)|
    ensures var bytes := Encoded(c, rs) + c.Line(r)[..cut] + c.Line(next) + Encoded(c, later);
            && Decoded(c, Lines(bytes)) == rs + (if cut == 0 then [next] else []) + later
            && Corrupt(c, Lines(bytes)) == if cut == 0 then 0 else 1
  {
    ValidSound(c, r);
    ValidSound(c, next);
    SplicedLine(c, r, cut, next);
    var merged := c.Line(r)[..cut] + c.enc(next);
    var before := Encoded(c, rs) + (merged + [NEWLINE]);
    Regrouped(c, Encoded(c, rs), c.Line(r)[..cut], next, Encoded(c, later));
    LastLineReads(c, rs, merged);
    EncodedReadsBack(c, later);
    AppendReads(c, before, Encoded(c, later));
  }
}
