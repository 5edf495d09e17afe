/** The log file: lines are appended to a stream, which is replaced when it grew too long or
    the day is over, and flushed after so many lines or so many seconds. */
module LogFiles {
  import opened Timestamps

  /** A line to append, with what the clock says if append reads it, and if roll_file does. */
  datatype Line = Line(text: string, now: int, rolled: int)

  /** A file: the lines written, how many of them have been flushed, and the day it was
      opened on. */
  datatype Stream = Stream(lines: seq<Line>, flushed: nat, period: int)

  datatype Config = Config(rollSize: int, flushInterval: int, checkEveryN: int) {
    /** What the parameters must be for the promises below. */
    predicate Valid() {
      rollSize >= 0 && flushInterval >= 0 && checkEveryN >= 1
    }
  }

  /** The members of a log file, and the files that it has closed. */
  datatype State = State(count: int, lastFlush: int, startPeriod: int, writenBytes: int,
                         fout: Stream, closed: seq<Stream>)

  function Bytes(lines: seq<Line>): nat {
    if lines == [] then 0 else Bytes(lines[..|lines| - 1]) + |lines[|lines| - 1].text|
  }

  /** The destructor of the stream flushes what is left. */
  function Closed(stream: Stream): Stream {
    stream.(flushed := |stream.lines|)
  }

  function Rolled(s: State, now: int): State {
    State(s.count, Seconds(now), Period(now), 0, Stream([], 0, Period(now)), s.closed + [Closed(s.fout)])
  }

  function Flushed(s: State, now: int): State {
    s.(lastFlush := Seconds(now), fout := s.fout.(flushed := |s.fout.lines|))
  }

  /** What append does when the line still fits and it is time to flush. */
  function Checked(s: State, line: Line): State {
    Flushed(if Period(line.now) != s.startPeriod then Rolled(s, line.rolled) else s, line.now)
  }

  function Appended(config: Config, s: State, line: Line): State {
    var s1 := s.(fout := s.fout.(lines := s.fout.lines + [line]), writenBytes := s.writenBytes + |line.text|);
    if s1.writenBytes > config.rollSize then Rolled(s1, line.rolled)
    else if s.count + 1 >= config.checkEveryN then Checked(s1.(count := 0), line)
    else if Seconds(line.now) - s.lastFlush > config.flushInterval then Checked(s1.(count := s.count + 1), line)
    else s1.(count := s.count + 1)
  }

  function Opened(now: int): State {
    State(0, Seconds(now), Period(now), 0, Stream([], 0, Period(now)), [])
  }

  // ----- what every state keeps -----

  /** The lines of a file that were written when another day had begun. */
  function Late(lines: seq<Line>, period: int): nat {
    if lines == [] then 0
    else Late(lines[..|lines| - 1], period) + if Period(lines[|lines| - 1].now) != period then 1 else 0
  }

  /** A file was closed for a reason: it had grown too long, or its last line is of another
      day than the file. */
  ghost predicate ClosedForReason(config: Config, stream: Stream)
    requires |stream.lines| > 0
  {
    Bytes(stream.lines) > config.rollSize || Period(stream.lines[|stream.lines| - 1].now) != stream.period
  }

  /** A file that was closed is complete on disk; without its last line it is within the
      size; it has at most n lines of another day; and it was closed for a reason. */
  ghost predicate SegmentOk(config: Config, stream: Stream) {
    Closable(config, stream) && ClosedForReason(config, stream)
  }

  ghost predicate Closable(config: Config, stream: Stream) {
    && |stream.lines| > 0 && stream.flushed == |stream.lines|
    && Bytes(stream.lines[..|stream.lines| - 1]) <= config.rollSize
    && Late(stream.lines, stream.period) <= config.checkEveryN
  }

  /** The open file is within the size, and all but a few last lines of it are on disk. */
  ghost predicate SizeOk(config: Config, s: State) {
    && s.writenBytes == Bytes(s.fout.lines) <= config.rollSize
    && 0 <= s.count < config.checkEveryN
    && s.fout.flushed <= |s.fout.lines| <= s.fout.flushed + s.count
    && Late(s.fout.lines, s.startPeriod) <= s.count
    && s.fout.period == s.startPeriod
  }

  /** What is not on disk was written within the flush interval. */
  ghost predicate TimeOk(config: Config, s: State, clock: int) {
    && s.lastFlush <= Seconds(clock) && s.startPeriod <= Period(clock)
    && (forall i | 0 <= i < |s.fout.lines| :: s.startPeriod <= Period(s.fout.lines[i].now) <= Period(clock))
    && (forall i | s.fout.flushed <= i < |s.fout.lines| ::
          Seconds(s.fout.lines[i].now) - s.lastFlush <= config.flushInterval)
  }

  ghost predicate ClosedOk(config: Config, closed: seq<Stream>) {
    forall i | 0 <= i < |closed| :: SegmentOk(config, closed[i])
  }

  ghost predicate Inv(config: Config, s: State, clock: int) {
    SizeOk(config, s) && TimeOk(config, s, clock) && ClosedOk(config, s.closed)
  }

  lemma ClockMonotone(a: int, b: int)
    requires a <= b
    ensures Seconds(a) <= Seconds(b) && Period(a) <= Period(b)
  {
  }

  /** Lines between two moments of the same day are all of that day. */
  lemma {:induction false} NoneLate(lines: seq<Line>, period: int)
    requires forall i | 0 <= i < |lines| :: Period(lines[i].now) == period
    ensures Late(lines, period) == 0
    decreases |lines|
  {
    if lines != [] {
      NoneLate(lines[..|lines| - 1], period);
    }
  }

  lemma Snoc(lines: seq<Line>, line: Line, period: int)
    ensures Bytes(lines + [line]) == Bytes(lines) + |line.text|
    ensures Late(lines + [line], period) == Late(lines, period) + if Period(line.now) != period then 1 else 0
    ensures (lines + [line])[..|lines|] == lines
  {
    assert (lines + [line])[..|lines|] == lines;
  }

  /** Closing a file that was fine until its last line, and opening the next. */
  lemma RolledKeeps(config: Config, s: State, clock: int, now: int)
    requires config.Valid() && 0 <= s.count < config.checkEveryN && ClosedOk(config, s.closed)
    requires SegmentOk(config, Closed(s.fout))
    ensures Inv(config, Rolled(s, now), now)
  {
  }

  /** A check leaves nothing unflushed, and no line of another day in the open file. */
  lemma CheckedKeeps(config: Config, s: State, line: Line)
    requires config.Valid() && 0 <= s.count < config.checkEveryN && ClosedOk(config, s.closed)
    requires Closable(config, Closed(s.fout)) && s.fout.period == s.startPeriod
    requires s.fout.lines[|s.fout.lines| - 1].now == line.now
    requires s.writenBytes == Bytes(s.fout.lines) <= config.rollSize
    requires line.now <= line.rolled && s.startPeriod <= Period(line.now)
    requires forall i | 0 <= i < |s.fout.lines| :: s.startPeriod <= Period(s.fout.lines[i].now) <= Period(line.now)
    ensures Inv(config, Checked(s, line), line.rolled)
    ensures Checked(s, line).lastFlush == Seconds(line.now)
  {
    ClockMonotone(line.now, line.rolled);
    if Period(line.now) != s.startPeriod {
      RolledKeeps(config, s, line.now, line.rolled);
    } else {
      NoneLate(s.fout.lines, s.startPeriod);
    }
  }

  /** What holds of the open file just after a line has been written to it. */
  lemma WrittenKeeps(config: Config, s: State, clock: int, line: Line)
    requires SizeOk(config, s) && TimeOk(config, s, clock) && clock <= line.now
    ensures var lines := s.fout.lines + [line];
            && Closable(config, Stream(lines, |lines|, s.fout.period))
            && Bytes(lines) == s.writenBytes + |line.text|
            && (forall i | 0 <= i < |lines| :: s.startPeriod <= Period(lines[i].now) <= Period(line.now))
            && s.startPeriod <= Period(line.now) && s.lastFlush <= Seconds(line.now)
            && Late(lines, s.startPeriod) <= s.count + 1
  {
    ClockMonotone(clock, line.now);
    Snoc(s.fout.lines, line, s.startPeriod);
  }

  /** A line that is just written, when it is not time to flush. */
  lemma PlainKeeps(config: Config, s: State, clock: int, line: Line)
    requires SizeOk(config, s) && TimeOk(config, s, clock) && clock <= line.now <= line.rolled
    requires s.writenBytes + |line.text| <= config.rollSize && s.count + 1 < config.checkEveryN
    requires Seconds(line.now) - s.lastFlush <= config.flushInterval
    ensures var t := Appended(config, s, line);
            SizeOk(config, t) && TimeOk(config, t, line.rolled) && t.closed == s.closed
  {
    hide Seconds, Period, Late, Bytes;
    WrittenKeeps(config, s, clock, line);
    ClockMonotone(line.now, line.rolled);
  }

  /** Appending a line keeps it all, as long as the clock does not go back; and when the
      clock was read after the line was written, the last flush is recent. */
  lemma AppendKeeps(config: Config, s: State, clock: int, line: Line)
    requires config.Valid() && Inv(config, s, clock) && clock <= line.now <= line.rolled
    ensures var s' := Appended(config, s, line);
            && Inv(config, s', line.rolled)
            && (s.writenBytes + |line.text| <= config.rollSize ==>
                  0 <= Seconds(line.now) - s'.lastFlush <= config.flushInterval)
  {
    hide Seconds, Period, Late, Bytes, TimeOk, ClosedOk;
    WrittenKeeps(config, s, clock, line);
    var lines := s.fout.lines + [line];
    var s1 := s.(fout := s.fout.(lines := lines), writenBytes := s.writenBytes + |line.text|);
    if s1.writenBytes > config.rollSize {
      RolledKeeps(config, s1, clock, line.rolled);
    } else if s.count + 1 >= config.checkEveryN {
      CheckedKeeps(config, s1.(count := 0), line);
    } else if Seconds(line.now) - s.lastFlush > config.flushInterval {
      CheckedKeeps(config, s1.(count := s.count + 1), line);
    } else {
      PlainKeeps(config, s, clock, line);
    }
  }

  // ----- when a file is closed, and when it is flushed -----

  /** The line does not fit in the file. */
  predicate TooLong(config: Config, s: State, line: Line) {
    s.writenBytes + |line.text| > config.rollSize
  }

  /** It fits, and so many lines or so much time have passed that it is time to flush. */
  predicate Due(config: Config, s: State, line: Line) {
    && !TooLong(config, s, line)
    && (s.count + 1 >= config.checkEveryN || Seconds(line.now) - s.lastFlush > config.flushInterval)
  }

  /** What an append that leads from state s to state t does: it closes the file exactly if
      the line made it too long, or it is time to flush and another day; and it flushes
      exactly if it is time to, or the file is closed. */
  ghost predicate AppendOk(config: Config, s: State, line: Line, t: State) {
    var lines := s.fout.lines + [line];
    var closes := TooLong(config, s, line) || (Due(config, s, line) && Period(line.now) != s.startPeriod);
    && t.closed == s.closed + (if closes then [Stream(lines, |lines|, s.fout.period)] else [])
    && t.fout.lines == (if closes then [] else lines)
    && t.fout.flushed == (if closes then 0 else if Due(config, s, line) then |lines| else s.fout.flushed)
    && t.fout.period == (if closes then Period(line.rolled) else s.fout.period)
    && t.startPeriod == (if closes then Period(line.rolled) else s.startPeriod)
    && t.writenBytes == (if closes then 0 else s.writenBytes + |line.text|)
    && t.lastFlush == (if TooLong(config, s, line) then Seconds(line.rolled)
                       else if Due(config, s, line) then Seconds(line.now) else s.lastFlush)
    && t.count == (if TooLong(config, s, line) then s.count
                   else if s.count + 1 >= config.checkEveryN then 0 else s.count + 1)
  }

  lemma AppendExact(config: Config, s: State, line: Line)
    ensures AppendOk(config, s, line, Appended(config, s, line))
  {
  }

  // ----- nothing is lost -----

  function Contents(files: seq<Stream>): seq<Line> {
    if files == [] then [] else Contents(files[..|files| - 1]) + files[|files| - 1].lines
  }

  /** All that has been written, over all files in the order they were opened. */
  function Written(s: State): seq<Line> {
    Contents(s.closed) + s.fout.lines
  }

  lemma ContentsSnoc(files: seq<Stream>, file: Stream)
    ensures Contents(files + [file]) == Contents(files) + file.lines
  {
    assert (files + [file])[..|files|] == files;
  }

  lemma RolledWritten(s: State, now: int)
    ensures Written(Rolled(s, now)) == Written(s)
  {
    ContentsSnoc(s.closed, Closed(s.fout));
  }

  lemma AppendWrites(config: Config, s: State, line: Line)
    ensures Written(Appended(config, s, line)) == Written(s) + [line]
  {
    var s1 := s.(fout := s.fout.(lines := s.fout.lines + [line]), writenBytes := s.writenBytes + |line.text|);
    assert Written(s1) == Written(s) + [line];
    RolledWritten(s1, line.rolled);
    RolledWritten(s1.(count := 0), line.rolled);
    RolledWritten(s1.(count := s.count + 1), line.rolled);
  }

  // ----- whole runs -----

  /** The clock does not go back from one line to the next. */
  ghost predicate Forward(clock: int, lines: seq<Line>) {
    && (forall i | 0 <= i < |lines| :: clock <= lines[i].now <= lines[i].rolled)
    && (forall i | 0 < i < |lines| :: lines[i - 1].rolled <= lines[i].now)
  }

  function Clock(clock: int, lines: seq<Line>): int {
    if lines == [] then clock else lines[|lines| - 1].rolled
  }

  function AppendedAll(config: Config, s: State, lines: seq<Line>): State {
    if lines == [] then s else Appended(config, AppendedAll(config, s, lines[..|lines| - 1]), lines[|lines| - 1])
  }

  /** Whatever is logged, the files hold exactly the lines, in order. */
  lemma {:induction false} LoggingConserves(config: Config, s: State, lines: seq<Line>)
    ensures Written(AppendedAll(config, s, lines)) == Written(s) + lines
    decreases |lines|
  {
    if lines != [] {
      var front, line := lines[..|lines| - 1], lines[|lines| - 1];
      var before := AppendedAll(config, s, front);
      LoggingConserves(config, s, front);
      AppendWrites(config, before, line);
      assert Written(s) + front + [line] == Written(s) + lines;
    }
  }

  /** ... and from the opening of the first file on, each of them is what the invariant
      promises, if the clock does not go back. */
  lemma {:induction false} LoggingBounds(config: Config, start: int, lines: seq<Line>)
    requires config.Valid() && Forward(start, lines)
    ensures Inv(config, AppendedAll(config, Opened(start), lines), Clock(start, lines))
    decreases |lines|
  {
    if lines != [] {
      var front, line := lines[..|lines| - 1], lines[|lines| - 1];
      LoggingBounds(config, start, front);
      AppendKeeps(config, AppendedAll(config, Opened(start), front), Clock(start, front), line);
    }
  }

  // ----- the class -----

  class LogFile {
    const config: Config
    var count: int
    var lastRoll: int
    var lastFlush: int
    var startPeriod: int
    var writenBytes: int
    var fout: Stream
    ghost var closed: seq<Stream>
    ghost var clock: int         // the latest reading of the clock
    ghost var lines: seq<Line>   // all that has been logged

    ghost function Value(): State
      reads this
    {
      State(count, lastFlush, startPeriod, writenBytes, fout, closed)
    }

    /** The files hold all that was logged, and are what the invariant promises. */
    ghost predicate Valid()
      reads this
    {
      config.Valid() && Inv(config, Value(), clock) && Written(Value()) == lines
    }

    constructor (config: Config, now: int)
      requires config.Valid()
      ensures Valid() && this.config == config && clock == now && lines == []
      ensures Value() == Opened(now)
      ensures count == 0 && writenBytes == 0 && fout == Stream([], 0, Period(now)) && closed == []
      ensures lastFlush == lastRoll == Seconds(now) && startPeriod == Period(now)
    {
      this.config := config;
      count, lastRoll, lastFlush, startPeriod, writenBytes := 0, Seconds(now), Seconds(now), Period(now), 0;
      fout, closed := Stream([], 0, Period(now)), [];
      clock, lines := now, [];
    }

    method RollFile(now: int)
      modifies this`lastRoll, this`lastFlush, this`startPeriod, this`writenBytes, this`fout, this`closed
      ensures Value() == Rolled(old(Value()), now)
      ensures lastRoll == lastFlush
      ensures Written(Value()) == old(Written(Value()))
      ensures fout.lines == [] && writenBytes == 0 && |closed| == |old(closed)| + 1
      ensures closed[|old(closed)|].lines == old(fout).lines && closed[|old(closed)|].flushed == |old(fout).lines|
      ensures old(config.Valid() && 0 <= count < config.checkEveryN && ClosedOk(config, closed)
              && SegmentOk(config, Closed(fout)))
              ==> Inv(config, Value(), now)
    {
      RolledWritten(Value(), now);
      if config.Valid() && 0 <= count < config.checkEveryN && ClosedOk(config, closed)
          && SegmentOk(config, Closed(fout)) {
        RolledKeeps(config, Value(), clock, now);
      }
      lastFlush := Seconds(now);
      lastRoll := lastFlush;
      startPeriod := Period(now);
      closed := closed + [Closed(fout)];
      fout := Stream([], 0, Period(now));
      writenBytes := 0;
    }

    method Append(line: Line)
      requires Valid() && clock <= line.now <= line.rolled
      modifies this
      ensures Valid() && lines == old(lines) + [line] && clock == line.rolled
      ensures Value() == Appended(config, old(Value()), line)
      ensures AppendOk(config, old(Value()), line, Value())
      ensures |closed| == |old(closed)| + 1
         <==> || old(writenBytes) + |line.text| > config.rollSize
              || ((old(count) + 1 >= config.checkEveryN || Seconds(line.now) - old(lastFlush) > config.flushInterval)
                  && Period(line.now) != old(startPeriod))
    {
      AppendExact(config, Value(), line);
      AppendKeeps(config, Value(), clock, line);
      AppendWrites(config, Value(), line);
      AppendUnlocked(line);
      clock, lines := line.rolled, lines + [line];
    }

    method AppendUnlocked(line: Line)
      modifies this`count, this`lastRoll, this`lastFlush, this`startPeriod, this`writenBytes, this`fout, this`closed
      ensures Value() == Appended(config, old(Value()), line)
    {
      fout := fout.(lines := fout.lines + [line]);
      writenBytes := writenBytes + |line.text|;
      if writenBytes > config.rollSize {
        RollFile(line.rolled);
      } else {
        count := count + 1;
        if count >= config.checkEveryN {
          count := 0;
          Check(line);
        } else if Seconds(line.now) - lastFlush > config.flushInterval {
          Check(line);
        }
      }
    }

    /** What append does in both cases when it is time to flush. */
    method Check(line: Line)
      modifies this`lastRoll, this`lastFlush, this`startPeriod, this`writenBytes, this`fout, this`closed
      ensures Value() == Checked(old(Value()), line)
    {
      if Period(line.now) != startPeriod {
        RollFile(line.rolled);
      }
      lastFlush := Seconds(line.now);
      fout := fout.(flushed := |fout.lines|);
    }

    /** Puts on disk all that is written, and changes nothing else. */
    method Flush()
      requires Valid()
      modifies this`fout
      ensures Valid() && fout == old(fout).(flushed := |fout.lines|)
    {
      fout := fout.(flushed := |fout.lines|);
    }
  }
}
