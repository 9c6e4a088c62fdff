/** The parser of IMAP THREAD responses in `email/threading.py`, against the grammar of section 5 of RFC 5256. */
module ThreadParser {
  import opened Prelude
  import opened Text

  datatype State = State(threads: seq<seq<int>>, depth: int, token: string, current: seq<int>)

  const Start: State := State([], 0, "", [])

  /** What a collected token stands for: nothing, a uid, or junk that is logged and dropped. */
  datatype Reading = Blank | Uid(value: int) | Junk

  function Read(token: string): Reading {
    if Strip(token) == "" then Blank
    else if PyInt(token).Some? then Uid(PyInt(token).value)
    else Junk
  }

  // The parser is stated for any reader of tokens; `Read` is the one of the program.
  type Reader = string -> Reading

  function Flush(read: Reader, st: State): State {
    match read(st.token)
    case Blank => st
    case Uid(n) => st.(token := "", current := st.current + [n])
    case Junk => st.(token := "")
  }

  function Step(read: Reader, st: State, c: char): State {
    if c == '(' then
      var f := Flush(read, st);
      f.(depth := f.depth + 1, current := if f.depth + 1 == 1 then [] else f.current)
    else if c == ')' then
      var f := Flush(read, st);
      if f.depth - 1 == 0 then State(f.threads + [f.current], 0, f.token, [])
      else f.(depth := f.depth - 1)
    else if IsSpace(c) then Flush(read, st)
    else st.(token := st.token + [c])
  }

  function Run(read: Reader, st: State, s: string): State
    decreases |s|
  {
    if s == "" then st else Run(read, Step(read, st, s[0]), s[1..])
  }

  /** `parse_thread_response` on decoded text. */
  method ParseThreadResponse(s: string) returns (threads: seq<seq<int>>)
    ensures threads == Parsed(s)
  {
    threads := [];
    var depth, token, current := 0, "", [];
    var i := 0;
    assert s[0..] == s;
    while i < |s|
      invariant 0 <= i <= |s|
      invariant Run(Read, State(threads, depth, token, current), s[i..]) == Run(Read, Start, s)
    {
      ghost var before := State(threads, depth, token, current);
      var c := s[i];
      if c == '(' || c == ')' || IsSpace(c) {
        match Read(token) {
          case Blank =>
          case Uid(n) => token, current := "", current + [n];
          case Junk => token := "";
        }
        assert State(threads, depth, token, current) == Flush(Read, before);
      }
      if c == '(' {
        depth := depth + 1;
        if depth == 1 {
          current := [];
        }
      } else if c == ')' {
        depth := depth - 1;
        if depth == 0 {
          threads := threads + [current];
          current := [];
        }
      } else if !IsSpace(c) {
        token := token + [c];
      }
      assert State(threads, depth, token, current) == Step(Read, before, c);
      assert s[i..][1..] == s[i + 1..];
      i := i + 1;
    }
    assert s[i..] == "";
  }

  // ---- what servers print

  /** A thread: consecutive messages, then branches. */
  datatype Thread = Thread(members: seq<nat>, branches: seq<Thread>)

  function PrintMembers(ms: seq<nat>): string {
    if ms == [] then "" else if |ms| == 1 then Decimal(ms[0]) else Decimal(ms[0]) + " " + PrintMembers(ms[1..])
  }

  function PrintThread(t: Thread): string
    decreases t, 1
  {
    "(" + (PrintMembers(t.members) + (if t.members != [] && t.branches != [] then " " else "")
           + PrintForest(t.branches)) + ")"
  }

  function PrintForest(ts: seq<Thread>): string
    decreases ts, 0
  {
    if ts == [] then "" else PrintThread(ts[0]) + PrintForest(ts[1..])
  }

  function AsInts(ms: seq<nat>): seq<int> {
    seq(|ms|, i requires 0 <= i < |ms| => ms[i])
  }

  /** The messages of a thread from left to right. */
  function Flatten(t: Thread): seq<int>
    decreases t, 1
  {
    AsInts(t.members) + FlattenAll(t.branches)
  }

  function FlattenAll(ts: seq<Thread>): seq<int>
    decreases ts, 0
  {
    if ts == [] then [] else Flatten(ts[0]) + FlattenAll(ts[1..])
  }

  // ---- the round trip

  /** The reader understands printed numbers. */
  ghost predicate ReadsNumbers(read: Reader) {
    read("") == Blank && forall s {:trigger read(s)} :: s != "" && AllDigits(s) ==> read(s) == Uid(DigitsValue(s))
  }

  lemma ReadReadsNumbers()
    ensures ReadsNumbers(Read)
  {
    forall s: string | s != "" && AllDigits(s) ensures Read(s) == Uid(DigitsValue(s)) {
      DigitsAreNotSpecial(s);
    }
  }

  lemma {:induction false} RunJoins(read: Reader, st: State, a: string, b: string)
    ensures Run(read, st, a + b) == Run(read, Run(read, st, a), b)
    decreases |a|
  {
    if a == "" {
      assert a + b == b;
    } else {
      assert (a + b)[1..] == a[1..] + b;
      RunJoins(read, Step(read, st, a[0]), a[1..], b);
    }
  }

  lemma {:induction false} RunDigits(read: Reader, st: State, ds: string)
    requires AllDigits(ds)
    ensures Run(read, st, ds) == st.(token := st.token + ds)
    decreases |ds|
  {
    if ds == "" {
      assert st.token + ds == st.token;
    } else {
      assert IsDigit(ds[0]) && !IsSpace(ds[0]);
      assert (st.token + [ds[0]]) + ds[1..] == st.token + ds;
      RunDigits(read, Step(read, st, ds[0]), ds[1..]);
    }
  }

  /** After a printed number, any delimiter first appends that number. */
  lemma FlushNumber(read: Reader, st: State, n: nat)
    requires ReadsNumbers(read)
    requires st.token == ""
    ensures Flush(read, Run(read, st, Decimal(n))) == st.(current := st.current + [n])
  {
    RunDigits(read, st, Decimal(n));
    assert "" + Decimal(n) == Decimal(n);
    DecimalReadsBack(n);
  }

  lemma RunSpace(read: Reader, st: State, tail: string)
    ensures Run(read, st, " " + tail) == Run(read, Flush(read, st), tail)
  {
    assert (" " + tail)[1..] == tail;
  }

  lemma {:induction false} RunMembers(read: Reader, st: State, ms: seq<nat>)
    requires ReadsNumbers(read)
    requires st.token == ""
    ensures Flush(read, Run(read, st, PrintMembers(ms))) == st.(current := st.current + AsInts(ms))
    decreases |ms|
  {
    if ms == [] {
      assert st.current + AsInts(ms) == st.current;
    } else if |ms| == 1 {
      FlushNumber(read, st, ms[0]);
      assert AsInts(ms) == [ms[0]];
    } else {
      var mid := st.(current := st.current + [ms[0]]);
      var tail := PrintMembers(ms[1..]);
      assert Run(read, st, PrintMembers(ms)) == Run(read, mid, tail) by {
        PrintFirst(ms);
        RunFirstMember(read, st, ms[0], tail);
      }
      RunMembers(read, mid, ms[1..]);
      assert mid.current + AsInts(ms[1..]) == st.current + AsInts(ms);
    }
  }

  lemma PrintFirst(ms: seq<nat>)
    requires |ms| > 1
    ensures PrintMembers(ms) == Decimal(ms[0]) + (" " + PrintMembers(ms[1..]))
  {
  }

  lemma RunFirstMember(read: Reader, st: State, n: nat, tail: string)
    requires ReadsNumbers(read)
    requires st.token == ""
    ensures Run(read, st, Decimal(n) + (" " + tail)) == Run(read, st.(current := st.current + [n]), tail)
  {
    RunJoins(read, st, Decimal(n), " " + tail);
    RunSpace(read, Run(read, st, Decimal(n)), tail);
    FlushNumber(read, st, n);
  }

  /** The effect of a printed thread: inside a thread its messages are appended, at the top it is a new thread. */
  function Absorb(st: State, t: Thread): State {
    if st.depth == 0 then State(st.threads + [Flatten(t)], 0, "", [])
    else st.(current := st.current + Flatten(t))
  }

  lemma {:induction false} RunBranches(read: Reader, st: State, ts: seq<Thread>)
    requires ReadsNumbers(read)
    requires st.token == "" && st.depth >= 1
    ensures Run(read, st, PrintForest(ts)) == st.(current := st.current + FlattenAll(ts))
    decreases ts, 0
  {
    if ts == [] {
      assert st.current + FlattenAll(ts) == st.current;
    } else {
      RunJoins(read, st, PrintThread(ts[0]), PrintForest(ts[1..]));
      RunThread(read, st, ts[0]);
      RunBranches(read, Absorb(st, ts[0]), ts[1..]);
      assert (st.current + Flatten(ts[0])) + FlattenAll(ts[1..]) == st.current + FlattenAll(ts);
    }
  }

  /** What is printed between the parentheses of a thread. */
  function Inside(t: Thread): string
    decreases t, 2
  {
    PrintMembers(t.members) + (if t.members != [] && t.branches != [] then " " else "") + PrintForest(t.branches)
  }

  lemma {:induction false} RunInside(read: Reader, st: State, t: Thread)
    requires ReadsNumbers(read)
    requires st.token == "" && st.depth >= 1
    ensures Flush(read, Run(read, st, Inside(t))) == st.(current := st.current + Flatten(t))
    decreases t, 0
  {
    var listed := st.(current := st.current + AsInts(t.members));
    RunMembers(read, st, t.members);
    if t.branches == [] {
      assert Inside(t) == PrintMembers(t.members);
      assert Flatten(t) == AsInts(t.members);
    } else {
      RunToBranches(read, st, t);
      RunBranches(read, listed, t.branches);
      assert listed.current + FlattenAll(t.branches) == st.current + Flatten(t);
    }
  }

  /** The members before the branches are appended by the time the first branch begins. */
  lemma RunToBranches(read: Reader, st: State, t: Thread)
    requires ReadsNumbers(read)
    requires st.token == "" && t.branches != []
    ensures Run(read, st, Inside(t))
            == Run(read, st.(current := st.current + AsInts(t.members)), PrintForest(t.branches))
  {
    var members, inner := PrintMembers(t.members), PrintForest(t.branches);
    if t.members == [] {
      assert Inside(t) == inner;
      assert st.current + AsInts(t.members) == st.current;
    } else {
      assert Inside(t) == members + (" " + inner);
      RunJoins(read, st, members, " " + inner);
      RunSpace(read, Run(read, st, members), inner);
      RunMembers(read, st, t.members);
    }
  }

  lemma RunOne(read: Reader, st: State, c: char)
    ensures Run(read, st, [c]) == Step(read, st, c)
  {
    assert [c][1..] == "";
  }

  lemma {:induction false} RunThread(read: Reader, st: State, t: Thread)
    requires ReadsNumbers(read)
    requires st.token == "" && st.depth >= 0
    ensures Run(read, st, PrintThread(t)) == Absorb(st, t)
    decreases t, 1
  {
    var open := Step(read, st, '(');
    assert PrintThread(t) == "(" + (Inside(t) + ")");
    assert PrintThread(t)[1..] == Inside(t) + ")";
    RunInside(read, open, t);
    RunJoins(read, open, Inside(t), ")");
    RunOne(read, Run(read, open, Inside(t)), ')');
    if st.depth == 0 {
      assert [] + Flatten(t) == Flatten(t);
    }
  }

  lemma {:induction false} RunForest(read: Reader, st: State, ts: seq<Thread>)
    requires ReadsNumbers(read)
    requires st.token == "" && st.depth == 0
    ensures Run(read, st, PrintForest(ts)).threads == st.threads + seq(|ts|, i requires 0 <= i < |ts| => Flatten(ts[i]))
    ensures Run(read, st, PrintForest(ts)).depth == 0 && Run(read, st, PrintForest(ts)).token == ""
    decreases |ts|
  {
    if ts != [] {
      RunJoins(read, st, PrintThread(ts[0]), PrintForest(ts[1..]));
      RunThread(read, st, ts[0]);
      RunForest(read, Absorb(st, ts[0]), ts[1..]);
    }
  }

  function Parsed(s: string): seq<seq<int>> {
    Run(Read, Start, s).threads
  }

  /** Parsing the printed form of any forest of nested threads yields, in order, one list per top-level thread: its
      messages from left to right. */
  lemma {:induction false} ParsePrintedForest(ts: seq<Thread>)
    ensures Parsed(PrintForest(ts)) == seq(|ts|, i requires 0 <= i < |ts| => Flatten(ts[i]))
  {
    ReadReadsNumbers();
    RunForest(Read, Start, ts);
  }

  /** A token may hold anything but parentheses and whitespace. */
  predicate IsToken(w: string) {
    w != "" && forall i :: 0 <= i < |w| ==> w[i] != '(' && w[i] != ')' && !IsSpace(w[i])
  }

  lemma {:induction false} RunToken(read: Reader, st: State, w: string)
    requires forall i :: 0 <= i < |w| ==> w[i] != '(' && w[i] != ')' && !IsSpace(w[i])
    ensures Run(read, st, w) == st.(token := st.token + w)
    decreases |w|
  {
    if w == "" {
      assert st.token + w == st.token;
    } else {
      assert (st.token + [w[0]]) + w[1..] == st.token + w;
      RunToken(read, Step(read, st, w[0]), w[1..]);
    }
  }

  lemma RunTokenAndSpace(read: Reader, st: State, w: string)
    requires st.token == "" && IsToken(w)
    ensures Run(read, st, w + " ") == Flush(read, st.(token := w))
  {
    RunJoins(read, st, w, " ");
    RunToken(read, st, w);
    assert "" + w == w;
    RunOne(read, st.(token := w), ' ');
  }

  /** A token that is not a number is skipped, and the thread around it is parsed as if it were not there. */
  lemma JunkIsSkipped(st: State, w: string, i: nat)
    requires st.token == "" && IsToken(w)
    requires i < |w| && !IsDigit(w[i]) && w[i] != '-' && w[i] != '+' && w[i] != '_'
    ensures Run(Read, st, w + " ") == st
  {
    RunTokenAndSpace(Read, st, w);
    ForeignIsNoNumber(w, i);
  }

  /** A signed number is taken as it is read, negative ones included. */
  lemma SignedNumberIsTaken(st: State, ds: string, n: int)
    requires st.token == "" && ds != "" && AllDigits(ds) && n == DigitsValue(ds)
    ensures Run(Read, st, ['-'] + ds + " ") == st.(current := st.current + [-n])
  {
    var w := ['-'] + ds;
    forall i | 0 <= i < |w| ensures w[i] != '(' && w[i] != ')' && !IsSpace(w[i]) {
      assert i > 0 ==> IsDigit(w[i]);
    }
    RunTokenAndSpace(Read, st, w);
    ReadOfSigned(ds, n);
  }

  lemma ReadOfSigned(ds: string, n: int)
    requires ds != "" && AllDigits(ds) && n == DigitsValue(ds)
    ensures Read(['-'] + ds) == Uid(-n)
  {
    PyIntReadsSigns(ds, n);
    SignedIsStripped('-', ds);
  }

  lemma {:induction false} ThreadsOnlyGrow(read: Reader, st: State, s: string)
    ensures st.threads <= Run(read, st, s).threads
    decreases |s|
  {
    if s != "" {
      ThreadsOnlyGrow(read, Step(read, st, s[0]), s[1..]);
    }
  }

  /** The closing parenthesis of a top-level thread is the step that appends it. */
  lemma ClosingAppends(read: Reader, st: State, t: Thread)
    requires ReadsNumbers(read)
    requires st.token == "" && st.depth == 0
    ensures var text := PrintThread(t);
            text != "" && Run(read, st, text[..|text| - 1]).threads == st.threads
  {
    var text := PrintThread(t);
    var last := |text| - 1;
    RunThread(read, st, t);
    assert text == text[..last] + ")";
    RunJoins(read, st, text[..last], ")");
    var before := Run(read, st, text[..last]);
    RunOne(read, before, ')');
    var f := Flush(read, before);
    assert f.threads == before.threads;
    assert (f.threads + [f.current])[..|f.threads|] == f.threads;
    assert (st.threads + [Flatten(t)])[..|st.threads|] == st.threads;
  }

  lemma PrefixAppendsNoMore(read: Reader, st: State, text: string, cut: nat)
    requires cut <= |text| && Run(read, st, text).threads == st.threads
    ensures Run(read, st, text[..cut]).threads == st.threads
  {
    assert text == text[..cut] + text[cut..];
    RunJoins(read, st, text[..cut], text[cut..]);
    ThreadsOnlyGrow(read, st, text[..cut]);
    ThreadsOnlyGrow(read, Run(read, st, text[..cut]), text[cut..]);
  }

  lemma PartOfThread(read: Reader, st: State, t: Thread, cut: nat)
    requires ReadsNumbers(read)
    requires cut < |PrintThread(t)| && st.token == "" && st.depth == 0
    ensures Run(read, st, PrintThread(t)[..cut]).threads == st.threads
  {
    ClosingAppends(read, st, t);
    var body := PrintThread(t)[..|PrintThread(t)| - 1];
    PrefixAppendsNoMore(read, st, body, cut);
    assert body[..cut] == PrintThread(t)[..cut];
  }

  lemma TruncatedForest(read: Reader, ts: seq<Thread>, part: string, t: Thread, cut: nat)
    requires ReadsNumbers(read)
    requires cut < |PrintThread(t)| && part == PrintThread(t)[..cut]
    ensures Run(read, Start, PrintForest(ts) + part).threads
            == seq(|ts|, i requires 0 <= i < |ts| => Flatten(ts[i]))
  {
    RunForest(read, Start, ts);
    RunJoins(read, Start, PrintForest(ts), part);
    PartOfThread(read, Run(read, Start, PrintForest(ts)), t, cut);
  }

  /** A response cut off inside a thread loses that thread only: every whole thread before it is still returned. */
  lemma {:induction false} TruncationLosesLastThread(ts: seq<Thread>, t: Thread, cut: nat)
    requires cut < |PrintThread(t)|
    ensures Parsed(PrintForest(ts) + PrintThread(t)[..cut]) == seq(|ts|, i requires 0 <= i < |ts| => Flatten(ts[i]))
  {
    ReadReadsNumbers();
    TruncatedForest(Read, ts, PrintThread(t)[..cut], t, cut);
  }
}
