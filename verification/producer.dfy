/** The bounded pull producer of the stream snippets: a `_read` hook that
    advances a cursor on every pull, signals end-of-stream once the cursor
    exceeds 10, and otherwise produces the cursor's decimal text followed by
    a newline; and the pipe that pulls until end-of-stream, appending every
    chunk to a sink.

    The half-second timer before a chunk arrives is not modelled: with one
    pull outstanding at a time, the chunk carries the cursor value that pull
    set. The sink (standard output, or a file) is an appending string. */
module Producer {
  import opened Wrappers

  /** The cursor value above which `_read` signals end-of-stream. */
  const Bound: nat := 10

  /** What one pull produces: a chunk of text, or end-of-stream (`push(null)`). */
  datatype Output = Chunk(text: string) | End

  /** The cursor after a pull, and what that pull produced. */
  datatype Step = Step(count: nat, out: Output)

  predicate IsDigit(c: char) {
    '0' <= c <= '9'
  }

  predicate AllDigits(s: string) {
    forall i :: 0 <= i < |s| ==> IsDigit(s[i])
  }

  function DigitChar(d: nat): (c: char)
    requires d < 10
    ensures IsDigit(c) && c as int - '0' as int == d
  {
    ('0' as int + d) as char
  }

  function DigitValue(c: char): nat
    requires IsDigit(c)
  {
    c as int - '0' as int
  }

  /** Decimal digits of `n`, no leading zero unless `n` is zero. This is
      the text of `n + ''` for the cursor values below 10^21 (JavaScript
      switches to exponent notation from there); the stream only ever
      formats 1 to 10. */
  function Decimal(n: nat): (s: string)
    ensures |s| >= 1 && AllDigits(s)
    ensures s[0] == '0' ==> n == 0
    decreases n
  {
    if n < 10 then [DigitChar(n)] else Decimal(n / 10) + [DigitChar(n % 10)]
  }

  /** Reads a digit string as a decimal number. */
  function ParseDecimal(s: string): nat
    requires AllDigits(s)
    decreases |s|
  {
    if s == [] then 0 else ParseDecimal(s[..|s| - 1]) * 10 + DigitValue(s[|s| - 1])
  }

  /** Reading the decimal text of `n` gives back `n`. */
  lemma {:induction false} DecimalRoundTrip(n: nat)
    ensures ParseDecimal(Decimal(n)) == n
    decreases n
  {
    var s := Decimal(n);
    if n >= 10 {
      DecimalRoundTrip(n / 10);
      assert s[..|s| - 1] == Decimal(n / 10);
    }
  }

  /** The chunk `_read` produces for cursor value `n`: `n + '\n'`. It is
      exactly one line: a newline at the end and nowhere else. */
  function Line(n: nat): (r: string)
    ensures |r| >= 2 && r[|r| - 1] == '\n'
    ensures '\n' !in r[..|r| - 1]
  {
    Decimal(n) + "\n"
  }

  /** Reads one line back: digits followed by a single newline. */
  function ParseLine(s: string): Option<nat> {
    if |s| >= 2 && s[|s| - 1] == '\n' && AllDigits(s[..|s| - 1])
    then Some(ParseDecimal(s[..|s| - 1]))
    else None
  }

  /** A produced line reads back as the value it was made from. */
  lemma LineRoundTrip(n: nat)
    ensures ParseLine(Line(n)) == Some(n)
  {
    var s := Line(n);
    assert s[..|s| - 1] == Decimal(n);
    DecimalRoundTrip(n);
  }

  /** One call of `_read` on cursor `count`: the cursor advances by one;
      end-of-stream exactly when the new cursor exceeds the bound; otherwise
      exactly one chunk, the new cursor's decimal text and a newline. */
  function Pull(count: nat): (r: Step)
    ensures r.count == count + 1
    ensures r.out == End <==> r.count > Bound
    ensures r.out.Chunk? ==> r.out.text == Line(r.count) && ParseLine(r.out.text) == Some(r.count)
  {
    var c := count + 1;
    if c > Bound then Step(c, End)
    else
      LineRoundTrip(c);
      Step(c, Chunk(Line(c)))
  }

  /** The outputs of `k` successive pulls starting from cursor `count`, one
      per pull (what each one is, is stated by `PullsAt`). */
  function Pulls(count: nat, k: nat): (r: seq<Output>)
    ensures |r| == k
    decreases k
  {
    if k == 0 then [] else [Pull(count).out] + Pulls(count + 1, k - 1)
  }

  /** The `i`-th of successive pulls from `count` sees cursor `count + i + 1`:
      a chunk for it while that is within the bound, end-of-stream after. */
  lemma {:induction false} PullsAt(count: nat, k: nat, i: nat)
    requires i < k
    ensures Pulls(count, k)[i] == (if count + i + 1 <= Bound then Chunk(Line(count + i + 1)) else End)
    decreases k
  {
    var rest := Pulls(count + 1, k - 1);
    assert Pulls(count, k) == [Pull(count).out] + rest;
    if i == 0 {
      var out := Pull(count).out;
      assert Pulls(count, k)[0] == out;
      if count + 1 <= Bound {
        assert out.Chunk? && out.text == Line(count + 1);
      }
    } else {
      PullsAt(count + 1, k - 1, i - 1);
      assert Pulls(count, k)[i] == rest[i - 1];
    }
  }

  /** From the initial cursor 0, pulls 1 to 10 yield the lines "1\n" to
      "10\n" in order, and pull 11 and every later one yield end-of-stream. */
  lemma PullsFromStart(k: nat, i: nat)
    requires i < k
    ensures i < Bound ==> Pulls(0, k)[i] == Chunk(Line(i + 1))
    ensures i >= Bound ==> Pulls(0, k)[i] == End
  {
    PullsAt(0, k, i);
  }

  /** Termination is monotone: once a pull signals end-of-stream, every
      later pull does too. */
  lemma EndIsFinal(count: nat, k: nat, i: nat, j: nat)
    requires i <= j < k
    requires Pulls(count, k)[i] == End
    ensures Pulls(count, k)[j] == End
  {
    PullsAt(count, k, i);
    PullsAt(count, k, j);
  }

  /** Successive chunks carry successive values: each one more than the last. */
  lemma ChunksAscend(count: nat, k: nat, i: nat)
    requires i + 1 < k
    requires Pulls(count, k)[i + 1].Chunk?
    ensures Pulls(count, k)[i].Chunk?
    ensures ParseLine(Pulls(count, k)[i].text).Some?
    ensures ParseLine(Pulls(count, k)[i + 1].text)
            == Some(ParseLine(Pulls(count, k)[i].text).value + 1)
  {
    PullsAt(count, k, i);
    PullsAt(count, k, i + 1);
    LineRoundTrip(count + i + 1);
    LineRoundTrip(count + i + 2);
  }

  /** The lines for the values `lo + 1` to `hi`, in order. */
  function Lines(lo: nat, hi: nat): string
    decreases hi
  {
    if hi <= lo then "" else Lines(lo, hi - 1) + Line(hi)
  }

  /** `r.pipe(sink)`: pulls from cursor `start` until end-of-stream,
      appending every chunk to an initially empty sink. The sink receives
      the lines `start + 1` to 10 in order; the last pull is the one that
      signalled end-of-stream, and nothing is pulled after it. */
  method Pipe(start: nat) returns (sink: string, count: nat, pulls: nat)
    ensures count == (if start < Bound then Bound else start) + 1
    ensures pulls == count - start
    ensures sink == Lines(start, Bound)
  {
    count, sink, pulls := start, "", 0;
    var done := false;
    while !done
      invariant start <= count
      invariant pulls == count - start
      invariant !done ==> count <= Bound || count == start
      invariant done ==> count == (if start < Bound then Bound else start) + 1
      invariant sink == Lines(start, if done then Bound else count)
      decreases if done then 0 else 1, if count <= Bound then Bound + 1 - count else 0
    {
      var step := Pull(count);
      count, pulls := step.count, pulls + 1;
      match step.out
      case End =>
        done := true;
      case Chunk(text) =>
        sink := sink + text;
    }
  }

  /** What the stream snippets write: ten lines, "1" to "10", in order. */
  lemma LinesFromStart()
    ensures Lines(0, Bound) == "1\n2\n3\n4\n5\n6\n7\n8\n9\n10\n"
  {
  }
}
