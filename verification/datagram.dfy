/** The message a datagram client sends: the command-line arguments after
    the first two (the runtime and the script path), joined with single
    spaces, or the default text "message" when that join is empty; and the
    byte range of the send call, which covers the whole buffer.

    The message is kept as text: the UTF-8 encoding into a buffer and the
    socket itself are not modelled. */
module Datagram {

  /** The fallback message. */
  const Default: string := "message"

  /** The separator `join` puts between arguments. */
  const Space: char := ' '

  /** `argv.splice(start)` with a single argument: the entries from `start`
      on are removed and returned; the first `start` entries stay (all of
      them when `start` is past the end). Nothing is lost or reordered. */
  function Splice(argv: seq<string>, start: nat): (r: (seq<string>, seq<string>))
    ensures r.0 + r.1 == argv
    ensures |r.0| == if start < |argv| then start else |argv|
  {
    var k := if start < |argv| then start else |argv|;
    (argv[..k], argv[k..])
  }

  /** Total length of a list of texts. */
  function TotalLength(parts: seq<string>): nat
    decreases |parts|
  {
    if parts == [] then 0 else |parts[0]| + TotalLength(parts[1..])
  }

  /** `parts.join(sep)`: the parts in order with `sep` between neighbours.
      The result starts with the first part and holds every part plus one
      separator between each two neighbours, nothing more. */
  function Join(parts: seq<string>, sep: string): (r: string)
    ensures |parts| >= 1 ==> |r| == TotalLength(parts) + (|parts| - 1) * |sep|
    ensures |parts| == 0 ==> r == ""
    ensures |parts| >= 1 ==> |parts[0]| <= |r| && r[..|parts[0]|] == parts[0]
    decreases |parts|
  {
    if |parts| == 0 then ""
    else if |parts| == 1 then parts[0]
    else parts[0] + sep + Join(parts[1..], sep)
  }

  /** Appending one more part appends the separator and that part: every
      two neighbours are joined by exactly one separator, whatever the
      parts contain. */
  lemma {:induction false} JoinAppend(parts: seq<string>, p: string, sep: string)
    requires |parts| >= 1
    ensures Join(parts + [p], sep) == Join(parts, sep) + sep + p
    decreases |parts|
  {
    var q := parts + [p];
    if |parts| >= 2 {
      assert q[1..] == parts[1..] + [p];
      JoinAppend(parts[1..], p, sep);
    } else {
      assert q[1..] == [p];
    }
  }

  /** Splits a text at every occurrence of `sep`; undoes `Join` when no
      part contains `sep` (`SplitJoin`). */
  function Split(s: string, sep: char): (r: seq<string>)
    ensures |r| >= 1
    decreases |s|
  {
    if s == [] then [""]
    else
      var rest := Split(s[1..], sep);
      if s[0] == sep then [""] + rest else [[s[0]] + rest[0]] + rest[1..]
  }

  /** A text without the separator is a single piece. */
  lemma {:induction false} SplitWithoutSep(p: string, sep: char)
    requires sep !in p
    ensures Split(p, sep) == [p]
    decreases |p|
  {
    if p != [] {
      SplitWithoutSep(p[1..], sep);
      assert [p[0]] + p[1..] == p;
    }
  }

  /** Splitting stops at the first separator. */
  lemma {:induction false} SplitAtSep(p: string, rest: string, sep: char)
    requires sep !in p
    ensures Split(p + [sep] + rest, sep) == [p] + Split(rest, sep)
    decreases |p|
  {
    var s := p + [sep] + rest;
    if p == [] {
      assert s[1..] == rest;
    } else {
      assert s[1..] == p[1..] + [sep] + rest;
      SplitAtSep(p[1..], rest, sep);
      assert [p[0]] + p[1..] == p;
    }
  }

  /** No part contains the separator. */
  predicate NoSep(parts: seq<string>, sep: char) {
    forall i :: 0 <= i < |parts| ==> sep !in parts[i]
  }

  /** Joining with a single separator can be undone by splitting, as long
      as no part contains the separator. */
  lemma {:induction false} SplitJoin(parts: seq<string>, sep: char)
    requires |parts| >= 1 && NoSep(parts, sep)
    ensures Split(Join(parts, [sep]), sep) == parts
    decreases |parts|
  {
    if |parts| == 1 {
      SplitWithoutSep(parts[0], sep);
    } else {
      SplitJoin(parts[1..], sep);
      SplitAtSep(parts[0], Join(parts[1..], [sep]), sep);
      assert [parts[0]] + parts[1..] == parts;
    }
  }

  /** A join with a non-empty separator is empty exactly when there is
      nothing to join, or a single empty part. */
  lemma JoinEmpty(parts: seq<string>, sep: string)
    requires sep != ""
    ensures Join(parts, sep) == "" <==> |parts| == 0 || (|parts| == 1 && parts[0] == "")
  {
  }

  /** Whether the client falls back to the default message: the guard on
      the argument count fails, or the join of the extra arguments is empty. */
  predicate FallsBack(argv: seq<string>) {
    |argv| < 1 || Join(Splice(argv, 2).1, [Space]) == ""
  }

  /** The fallback happens exactly when there are no extra arguments, or a
      single empty one. */
  lemma FallsBackIff(argv: seq<string>)
    ensures FallsBack(argv) <==> |argv| <= 2 || (|argv| == 3 && argv[2] == "")
  {
    JoinEmpty(Splice(argv, 2).1, [Space]);
  }

  /** The message the client sends for the command line `argv`. It is never
      empty; it is the default when there is nothing to send; otherwise it
      is the arguments from index 2 on joined by spaces, and when no such
      argument holds a space, splitting it at spaces gives them back. */
  function Message(argv: seq<string>): (m: string)
    ensures m != ""
    ensures |argv| <= 2 || (|argv| == 3 && argv[2] == "") ==> m == Default
    ensures |argv| >= 3 && !(|argv| == 3 && argv[2] == "") ==> m == Join(argv[2..], [Space])
    ensures |argv| >= 3 && !(|argv| == 3 && argv[2] == "") && NoSep(argv[2..], Space)
            ==> Split(m, Space) == argv[2..]
  {
    FallsBackIff(argv);
    if |argv| >= 1 then
      var extra := Splice(argv, 2).1;
      var joined := Join(extra, [Space]);
      if joined == "" then Default
      else if NoSep(extra, Space) then
        SplitJoin(extra, Space);
        joined
      else joined
    else Default
  }

  /** Only the arguments from index 2 on matter: command lines that agree
      there give the same message, whatever their first two entries. */
  lemma MessageIgnoresFirstTwo(a: seq<string>, b: seq<string>)
    requires |a| >= 2 && |b| >= 2 && a[2..] == b[2..]
    ensures Message(a) == Message(b)
  {
    assert Splice(a, 2).1 == Splice(b, 2).1;
  }

  /** The arguments of `client.send`: the buffer, an offset and a length. */
  datatype Send = Send(buffer: string, offset: nat, length: nat)

  /** The send call passes offset 0 and the buffer's own length, so the
      datagram carries the whole message and nothing else. */
  function SendMessage(message: string): (d: Send)
    ensures d.buffer == message
    ensures d.offset + d.length <= |d.buffer|
    ensures d.buffer[d.offset..d.offset + d.length] == message
  {
    Send(message, 0, |message|)
  }
}
