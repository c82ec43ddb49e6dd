/**
  Line framing: messages written one after the other, each followed by a newline
  (`broadcast_event` in `src/server/server.c`), and the reassembly of lines from reads of any
  size in a buffer that grows (`run_subscribe` in `src/main.c`).
 */
module Framing {
  import opened Wrappers

  const NEWLINE: char := '\n'
  const INITIAL_CAPACITY := 262144

  // ------------------------------------------------------------------
  // What a byte stream means
  // ------------------------------------------------------------------

  /** A C string ends at its first NUL. */
  function CString(s: string): (r: string)
    ensures NUL !in r && (NUL !in s ==> r == s)
  {
    if s == "" || s[0] == NUL then "" else [s[0]] + CString(s[1..])
  }

  lemma {:induction false} CStringIsPrefix(s: string)
    ensures CString(s) <= s && (|CString(s)| < |s| ==> s[|CString(s)|] == NUL)
  {
    if s != "" && s[0] != NUL {
      CStringIsPrefix(s[1..]);
    }
  }

  /** What follows the last newline among the first `n` bytes. */
  function Pending(s: string, n: nat): (r: string)
    requires n <= |s|
    ensures NEWLINE !in r
  {
    if n == 0 || s[n - 1] == NEWLINE then "" else Pending(s, n - 1) + [s[n - 1]]
  }

  /** The lines completed by the first `n` bytes, without the empty ones. */
  function LinesTo(s: string, n: nat): (lines: seq<string>)
    requires n <= |s|
    ensures forall k :: 0 <= k < |lines| ==> NEWLINE !in lines[k] && NUL !in lines[k]
  {
    if n == 0 then []
    else if s[n - 1] == NEWLINE && Pending(s, n - 1) != "" then
      LineIsClean(Pending(s, n - 1));
      LinesTo(s, n - 1) + [CString(Pending(s, n - 1))]
    else LinesTo(s, n - 1)
  }

  function Lines(s: string): seq<string> { LinesTo(s, |s|) }

  function Rest(s: string): string { Pending(s, |s|) }

  lemma {:induction false} LineIsClean(s: string)
    requires NEWLINE !in s
    ensures NEWLINE !in CString(s)
  {
    if s != "" && s[0] != NUL {
      LineIsClean(s[1..]);
    }
  }

  lemma {:induction false} PrefixMeansSame(s: string, c: char, n: nat)
    requires n <= |s|
    ensures Pending(s + [c], n) == Pending(s, n) && LinesTo(s + [c], n) == LinesTo(s, n)
  {
    if n > 0 {
      PrefixMeansSame(s, c, n - 1);
    }
  }

  lemma OneMoreByte(s: string, c: char)
    ensures Rest(s + [c]) == if c == NEWLINE then "" else Rest(s) + [c]
    ensures Lines(s + [c]) == if c == NEWLINE && Rest(s) != "" then Lines(s) + [CString(Rest(s))] else Lines(s)
  {
    PrefixMeansSame(s, c, |s|);
  }

  // ------------------------------------------------------------------
  // The reader
  // ------------------------------------------------------------------

  /** The bytes of the first `n` reads. */
  function Flat(chunks: seq<string>, n: nat): string
    requires n <= |chunks|
  {
    if n == 0 then "" else Flat(chunks, n - 1) + chunks[n - 1]
  }

  function Stream(chunks: seq<string>): string { Flat(chunks, |chunks|) }

  class LineReader {
    var buffer: array<char>
    var length: nat
    var received: seq<string>     // the lines handed to the JSON parser
    ghost var seen: string        // all bytes so far

    ghost predicate Valid()
      reads this, buffer
    {
      && length < buffer.Length
      && buffer[..length] == Rest(seen) && received == Lines(seen)
    }

    constructor ()
      ensures Valid() && seen == "" && fresh(buffer)
    {
      buffer := new char[INITIAL_CAPACITY](_ => NUL);
      length, received, seen := 0, [], "";
    }

    /** One byte that is not a newline; the buffer doubles before it is full. */
    method Append(c: char)
      requires Valid() && c != NEWLINE
      modifies this, buffer
      ensures Valid() && seen == old(seen) + [c]
      ensures buffer == old(buffer) || fresh(buffer)
      ensures buffer.Length ==
              if old(length) + 1 >= old(buffer.Length) then 2 * old(buffer.Length) else old(buffer.Length)
    {
      OneMoreByte(seen, c);
      if length + 1 >= buffer.Length {
        var source, n := buffer, length;
        buffer := new char[2 * source.Length](i requires n <= source.Length reads source =>
          if 0 <= i < n then source[i] else NUL);
        assert buffer[..n] == source[..n];
      }
      buffer[length] := c;
      length := length + 1;
      seen := seen + [c];
    }

    method EndLine()
      requires Valid()
      modifies this, buffer
      ensures Valid() && seen == old(seen) + [NEWLINE] && buffer == old(buffer)
    {
      OneMoreByte(seen, NEWLINE);
      buffer[length] := NUL;
      if length > 0 {
        received := received + [CString(buffer[..length])];
      }
      length := 0;
      seen := seen + [NEWLINE];
    }

    method Feed(chunk: string)
      requires Valid()
      modifies this, buffer
      ensures Valid() && seen == old(seen) + chunk
      ensures buffer == old(buffer) || fresh(buffer)
    {
      var i := 0;
      while i < |chunk|
        invariant i <= |chunk| && Valid() && seen == old(seen) + chunk[..i]
        invariant buffer == old(buffer) || fresh(buffer)
      {
        if chunk[i] == NEWLINE {
          EndLine();
        } else {
          Append(chunk[i]);
        }
        i := i + 1;
      }
    }
  }

  /** What the subscriber receives depends on the bytes only, not on where the reads cut them. */
  method RunSubscribe(chunks: seq<string>) returns (received: seq<string>)
    ensures received == Lines(Stream(chunks))
  {
    var reader := new LineReader();
    for i := 0 to |chunks|
      invariant fresh(reader) && fresh(reader.buffer) && reader.Valid() && reader.seen == Flat(chunks, i)
    {
      reader.Feed(chunks[i]);
    }
    return reader.received;
  }

  // ------------------------------------------------------------------
  // Round trip
  // ------------------------------------------------------------------

  /** What one writer sends for the first `n` messages. */
  function WireTo(messages: seq<string>, n: nat): string
    requires n <= |messages|
  {
    if n == 0 then "" else WireTo(messages, n - 1) + messages[n - 1] + [NEWLINE]
  }

  function Wire(messages: seq<string>): string { WireTo(messages, |messages|) }

  predicate Plain(m: string) { NEWLINE !in m && NUL !in m }

  function NonEmpty(messages: seq<string>, n: nat): (r: seq<string>)
    requires n <= |messages|
    ensures |r| <= n && (|r| == n ==> r == messages[..n] && forall k :: 0 <= k < n ==> messages[k] != "")
    ensures (forall k :: 0 <= k < n ==> messages[k] != "") ==> |r| == n
  {
    if n == 0 then []
    else if messages[n - 1] == "" then NonEmpty(messages, n - 1)
    else NonEmpty(messages, n - 1) + [messages[n - 1]]
  }

  lemma {:induction false} MessageArrives(s: string, m: string, n: nat)
    requires Rest(s) == "" && n <= |m| && NEWLINE !in m
    ensures Rest(s + m[..n]) == m[..n] && Lines(s + m[..n]) == Lines(s)
  {
    if n == 0 {
      assert s + m[..0] == s;
    } else {
      MessageArrives(s, m, n - 1);
      OneMoreByte(s + m[..n - 1], m[n - 1]);
      assert s + m[..n] == s + m[..n - 1] + [m[n - 1]];
      assert m[..n] == m[..n - 1] + [m[n - 1]];
    }
  }

  lemma MessageAndNewline(s: string, m: string)
    requires Rest(s) == "" && Plain(m)
    ensures var r := s + m + [NEWLINE]; Rest(r) == "" && Lines(r) == if m == "" then Lines(s) else Lines(s) + [m]
  {
    MessageArrives(s, m, |m|);
    assert m[..|m|] == m;
    OneMoreByte(s + m, NEWLINE);
  }

  lemma {:induction false} PlainMessagesArrive(messages: seq<string>, n: nat)
    requires n <= |messages| && forall k :: 0 <= k < n ==> Plain(messages[k])
    ensures Rest(WireTo(messages, n)) == "" && Lines(WireTo(messages, n)) == NonEmpty(messages, n)
  {
    if n > 0 {
      PlainMessagesArrive(messages, n - 1);
      MessageAndNewline(WireTo(messages, n - 1), messages[n - 1]);
    }
  }

  /** Main result: a sequence of messages arrives unchanged exactly if none of them is empty or
      contains a newline or a NUL. */
  lemma RoundTripIff(messages: seq<string>)
    ensures Lines(Wire(messages)) == messages <==>
            (forall k :: 0 <= k < |messages| ==> messages[k] != "" && Plain(messages[k]))
  {
    if forall k :: 0 <= k < |messages| ==> Plain(messages[k]) {
      PlainMessagesArrive(messages, |messages|);
      assert messages[..|messages|] == messages;
    }
  }
}
