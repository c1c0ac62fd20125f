/**
 The record a child sends to the parent, `"%d:%s"` and a terminating NUL, and how
 the parent takes it apart again.
 */
module ChatRecords {
  import opened CStrings
  import opened Arithmetic

  predicate IsDigit(c: char) {
    '0' <= c <= '9'
  }

  function DigitOf(n: nat): (c: char)
    requires n < 10
    ensures IsDigit(c) && ValueOf(c) == n
  {
    '0' + n as char
  }

  function ValueOf(c: char): (n: nat)
    requires IsDigit(c)
    ensures n < 10
  {
    c as int - '0' as int
  }

  /** `%d` of a non-negative number. */
  function Decimal(n: nat): (s: string)
    ensures s != "" && forall i :: 0 <= i < |s| ==> IsDigit(s[i])
  {
    if n < 10 then [DigitOf(n)] else Decimal(n / 10) + [DigitOf(n % 10)]
  }

  predicate IsSpace(c: char) {
    c == ' ' || 9 as char <= c <= 13 as char
  }

  function SkipSpaces(s: string): (t: string)
    ensures |t| <= |s|
  {
    if s != "" && IsSpace(s[0]) then SkipSpaces(s[1..]) else s
  }

  /** The digits at the front of `s`, read after the value `seen`. */
  function DigitsFrom(s: string, seen: nat): nat
    decreases |s|
  {
    if s == "" || !IsDigit(s[0]) then seen
    else DigitsFrom(s[1..], 10 * seen + ValueOf(s[0]))
  }

  /** `atoi`: white space, an optional sign, digits. */
  function Atoi(s: string): int {
    var t := SkipSpaces(s);
    if t != "" && t[0] == '-' then -(DigitsFrom(t[1..], 0) as int)
    else if t != "" && t[0] == '+' then DigitsFrom(t[1..], 0)
    else DigitsFrom(t, 0)
  }

  lemma {:induction false} DigitsFromAppend(s: string, seen: nat, c: char)
    requires forall i :: 0 <= i < |s| ==> IsDigit(s[i])
    requires IsDigit(c)
    ensures DigitsFrom(s + [c], seen) == 10 * DigitsFrom(s, seen) + ValueOf(c)
    decreases |s|
  {
    if s == "" {
      assert (s + [c])[1..] == "";
    } else {
      assert (s + [c])[1..] == s[1..] + [c];
      DigitsFromAppend(s[1..], 10 * seen + ValueOf(s[0]), c);
    }
  }

  lemma {:induction false} DecimalReadsBack(n: nat)
    ensures DigitsFrom(Decimal(n), 0) == n
  {
    if n < 10 {
      assert Decimal(n)[1..] == "";
    } else {
      DecimalReadsBack(n / 10);
      DigitsFromAppend(Decimal(n / 10), 0, DigitOf(n % 10));
    }
  }

  /** `atoi` undoes `%d`; in particular different process ids print differently. */
  lemma AtoiOfDecimal(n: nat)
    ensures Atoi(Decimal(n)) == n
  {
    DecimalReadsBack(n);
    assert IsDigit(Decimal(n)[0]);
  }

  /** What a child writes into its pipe for one client text, without the NUL. */
  function Format(pid: nat, text: string): string {
    Decimal(pid) + ":" + text
  }

  /** The record as it stands in the pipe. */
  function Record(pid: nat, text: string): string {
    Format(pid, text) + [NUL]
  }

  datatype Parsed = Malformed | Parsed(pid: int, content: string)

  /** The parent's reading of a buffer that holds `n_read` bytes and a NUL after them. */
  function Parse(buffer: string): Parsed {
    var first := Strtok(UpTo(buffer, NUL), ':');
    var content := StrtokRest(first);
    if first.token.None? || content.None? then Malformed
    else Parsed(Atoi(first.token.value), UpTo(content.value, '\n'))
  }

  lemma ParseOfLine(pid: nat, text: string)
    requires text != "" && NulFree(text)
    ensures Parse(Format(pid, text)) == Parsed(pid, UpTo(text, '\n'))
  {
    var line := Format(pid, text);
    UpToWhole(line, NUL);
    assert line == Decimal(pid) + [':'] + text;
    StrtokFinds(Decimal(pid), ':', text);
    AtoiOfDecimal(pid);
  }

  /**
   Whatever follows the first record in the buffer, the parent recovers the sender's
   process id and the text up to its first newline, also when the text contains ':'.
   */
  lemma ParseOfRecord(pid: nat, text: string, tail: string)
    requires text != "" && NulFree(text)
    ensures Parse(Record(pid, text) + tail) == Parsed(pid, UpTo(text, '\n'))
  {
    var line := Format(pid, text);
    assert Record(pid, text) + tail == line + [NUL] + tail;
    UpToStopsAt(line, NUL, tail);
    UpToWhole(line, NUL);
    ParseOfLine(pid, text);
  }

  /** `BUFSIZ - 1`: the most one `read` returns. */
  const READ_MAX: nat := 8191

  /** The largest process id a 32-bit `pid_t` holds. */
  const PID_MAX: nat := 0x7FFF_FFFF

  lemma {:induction false} DecimalLength(n: nat, digits: nat, bound: nat)
    requires digits >= 1 && bound == PowerOfTen(digits) && n < bound
    ensures |Decimal(n)| <= digits
    decreases digits
  {
    if n >= 10 {
      DecimalLength(n / 10, digits - 1, bound / 10);
    }
  }

  function PowerOfTen(k: nat): (p: nat)
    ensures p > 0
  {
    if k == 0 then 1 else 10 * PowerOfTen(k - 1)
  }

  /** Most significant digit first: the `k`-th digit from the end counts `10^k`. */
  lemma {:induction false} DigitAt(n: nat, k: nat)
    requires k < |Decimal(n)|
    ensures ValueOf(Decimal(n)[|Decimal(n)| - 1 - k]) == n / PowerOfTen(k) % 10
    decreases k
  {
    if k > 0 {
      DigitAt(n / 10, k - 1);
      DivideTwice(n, PowerOfTen(k - 1));
    }
  }

  lemma DivideTwice(n: nat, p: nat)
    requires p > 0
    ensures n / 10 / p == n / (10 * p)
  {
    var q, r := n / 10, n % 10;
    var a, b := q / p, q % p;
    assert n == 10 * q + r && q == a * p + b;
    assert n == a * (10 * p) + (10 * b + r);
    assert 0 <= 10 * b + r < 10 * p;
    DivModUnique(10 * p, a, 10 * b + r);
  }

  /** A record as a child writes it. */
  lemma RecordInFull()
    ensures Record(1234, "hi") == "1234:hi\0"
  {
    assert Decimal(1234) == Decimal(123) + "4" && Decimal(123) == Decimal(12) + "3" && Decimal(12) == "12";
  }

  lemma PidLength(pid: nat)
    requires pid <= PID_MAX
    ensures |Decimal(pid)| <= 10
  {
    DecimalLength(pid, 10, PowerOfTen(10));
  }

  /** What one read can bring of the first line of a text. */
  function FirstLine(pid: nat, text: string): (line: string)
    requires |Decimal(pid)| < READ_MAX
    ensures line <= UpTo(text, '\n')
    ensures line == UpTo(text, '\n') <==> |Decimal(pid)| + 1 + |UpTo(text, '\n')| <= READ_MAX
  {
    Take(UpTo(text, '\n'), READ_MAX - |Decimal(pid)| - 1)
  }

  /**
   One read of a pipe that begins with a record recovers the sender's process id
   always, and the first line of the text as far as the read goes.
   */
  lemma ParseOfRead(pid: nat, text: string, tail: string)
    requires pid <= PID_MAX && text != "" && NulFree(text)
    ensures |Decimal(pid)| < READ_MAX
    ensures Parse(Take(Record(pid, text) + tail, READ_MAX)) == Parsed(pid, FirstLine(pid, text))
  {
    PidLength(pid);
    var all, n := Record(pid, text) + tail, READ_MAX - |Decimal(pid)| - 1;
    var head := Take(all, READ_MAX);
    if |Record(pid, text)| <= READ_MAX {
      assert head == Record(pid, text) + head[|Record(pid, text)|..];
      ParseOfRecord(pid, text, head[|Record(pid, text)|..]);
    } else {
      assert head == Format(pid, Take(text, n));
      assert forall c :: c in Take(text, n) ==> c in text;
      ParseOfLine(pid, Take(text, n));
      UpToOfTake(text, '\n', n);
    }
  }

  // ------------------------------------------------------------ unread bytes

  /** Records one after the other, as a child has written them. */
  function Records(pid: nat, texts: seq<string>): string {
    if texts == [] then "" else Record(pid, texts[0]) + Records(pid, texts[1..])
  }

  /**
   What the unread bytes of a pipe are: the end of a record that an earlier read has
   cut, if there is one, and whole records.
   */
  datatype Backlog = Backlog(cut: string, texts: seq<string>)

  const NOTHING_UNREAD := Backlog("", [])

  function Bytes(pid: nat, b: Backlog): string {
    b.cut + Records(pid, b.texts)
  }

  function Append(b: Backlog, text: string): Backlog {
    b.(texts := b.texts + [text])
  }

  /** What is left when `n` bytes have been read. */
  function Skip(pid: nat, b: Backlog, n: nat): Backlog
    decreases |b.texts|
  {
    if n <= |b.cut| then b.(cut := b.cut[n..])
    else if b.texts == [] then NOTHING_UNREAD
    else Skip(pid, Backlog(Record(pid, b.texts[0]), b.texts[1..]), n - |b.cut|)
  }

  lemma {:induction false} RecordsAppend(pid: nat, texts: seq<string>, text: string)
    ensures Records(pid, texts + [text]) == Records(pid, texts) + Record(pid, text)
  {
    if texts == [] {
      assert ([text])[1..] == [];
    } else {
      assert (texts + [text])[1..] == texts[1..] + [text];
      RecordsAppend(pid, texts[1..], text);
    }
  }

  lemma BytesAppend(pid: nat, b: Backlog, text: string)
    ensures Bytes(pid, Append(b, text)) == Bytes(pid, b) + Record(pid, text)
  {
    RecordsAppend(pid, b.texts, text);
  }

  /** The account of the unread bytes is exact after every read. */
  lemma {:induction false} BytesAfterSkip(pid: nat, b: Backlog, n: nat)
    ensures Bytes(pid, Skip(pid, b, n)) == Rest(Bytes(pid, b), n)
    ensures forall t :: t in Skip(pid, b, n).texts ==> t in b.texts
    decreases |b.texts|
  {
    hide Record;
    if n > |b.cut| && b.texts != [] {
      var next := Backlog(Record(pid, b.texts[0]), b.texts[1..]);
      BytesAfterSkip(pid, next, n - |b.cut|);
      assert Bytes(pid, b) == b.cut + Bytes(pid, next);
    }
  }

  /** A read that reaches the end leaves nothing. */
  lemma SkipAll(pid: nat, b: Backlog, n: nat)
    ensures |Bytes(pid, b)| <= n ==> Skip(pid, b, n) == NOTHING_UNREAD
  {
    BytesAfterSkip(pid, b, n);
    NoBytes(pid, Skip(pid, b, n));
  }

  lemma NoBytes(pid: nat, b: Backlog)
    ensures Bytes(pid, b) == "" <==> b == NOTHING_UNREAD
  {
  }
}
