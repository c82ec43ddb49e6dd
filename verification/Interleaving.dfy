/**
  Several writers on one connection (broadcasts and replies in `src/server/server.c`): each
  writes its messages in two pieces, the message and then a newline, and pieces of different
  writers may come in any order.
 */
module Interleaving {
  import opened Wrappers
  import opened Framing

  datatype Piece =
    | Message(writer: nat, text: string)
    | Newline(writer: nat)

  function Bytes(p: Piece): string { if p.Message? then p.text else [NEWLINE] }

  /** What the first `n` pieces put on the wire. */
  function Sent(pieces: seq<Piece>, n: nat): string
    requires n <= |pieces|
  {
    if n == 0 then "" else Sent(pieces, n - 1) + Bytes(pieces[n - 1])
  }

  /** The messages among the first `n` pieces. */
  function Messages(pieces: seq<Piece>, n: nat): seq<string>
    requires n <= |pieces|
  {
    if n == 0 then []
    else if pieces[n - 1].Message? then Messages(pieces, n - 1) + [pieces[n - 1].text]
    else Messages(pieces, n - 1)
  }

  /** The writers that have written a message but not yet its newline. */
  function Open(pieces: seq<Piece>, n: nat): set<nat>
    requires n <= |pieces|
  {
    if n == 0 then {}
    else
      var open, p := Open(pieces, n - 1), pieces[n - 1];
      if p.Message? then open + {p.writer} else open - {p.writer}
  }

  /** Every writer keeps its own order, message and newline in turn, and finishes. */
  ghost predicate InOrder(pieces: seq<Piece>) {
    && (forall n :: 0 <= n < |pieces| ==> (pieces[n].Message? <==> pieces[n].writer !in Open(pieces, n)))
    && Open(pieces, |pieces|) == {}
  }

  ghost predicate AllPlain(pieces: seq<Piece>) {
    forall n :: 0 <= n < |pieces| && pieces[n].Message? ==> pieces[n].text != "" && Plain(pieces[n].text)
  }

  predicate FollowedByItsNewline(pieces: seq<Piece>, n: nat)
    requires n < |pieces|
  {
    pieces[n].Message? ==> n + 1 < |pieces| && pieces[n + 1] == Newline(pieces[n].writer)
  }

  /** No piece of another writer comes between a message and its newline. */
  ghost predicate Undivided(pieces: seq<Piece>) {
    forall n :: 0 <= n < |pieces| ==> FollowedByItsNewline(pieces, n)
  }

  function Received(pieces: seq<Piece>, n: nat): seq<string>
    requires n <= |pieces|
  {
    Lines(Sent(pieces, n))
  }

  function Left(pieces: seq<Piece>, n: nat): string
    requires n <= |pieces|
  {
    Framing.Rest(Sent(pieces, n))
  }

  // ------------------------------------------------------------------
  // Counting lines
  // ------------------------------------------------------------------

  /** An unfinished line waits exactly after a message. */
  predicate Waiting(pieces: seq<Piece>, n: nat)
    requires n <= |pieces|
  {
    n > 0 && pieces[n - 1].Message?
  }

  /** Messages that came in while an unfinished line was waiting. */
  function Merged(pieces: seq<Piece>, n: nat): nat
    requires n <= |pieces|
  {
    if n == 0 then 0
    else Merged(pieces, n - 1) + if pieces[n - 1].Message? && Waiting(pieces, n - 1) then 1 else 0
  }

  lemma {:induction false} StaysUnfinished(s: string, m: string, n: nat)
    requires n <= |m| && NEWLINE !in m
    ensures Lines(s + m[..n]) == Lines(s) && (n > 0 ==> Framing.Rest(s + m[..n]) != "")
  {
    if n == 0 {
      assert s + m[..0] == s;
    } else {
      StaysUnfinished(s, m, n - 1);
      OneMoreByte(s + m[..n - 1], m[n - 1]);
      assert s + m[..n] == s + m[..n - 1] + [m[n - 1]];
    }
  }

  /** What one more piece does to the reader. */
  lemma OneMorePiece(pieces: seq<Piece>, n: nat)
    requires n < |pieces| && AllPlain(pieces)
    ensures var p, left, received := pieces[n], Left(pieces, n), Received(pieces, n);
            if p.Message? then
              && Received(pieces, n + 1) == received
              && Left(pieces, n + 1) != "" && (left == "" ==> Left(pieces, n + 1) == p.text)
            else
              && Received(pieces, n + 1) == (if left == "" then received else received + [CString(left)])
              && Left(pieces, n + 1) == ""
  {
    var p, s := pieces[n], Sent(pieces, n);
    if p.Message? {
      assert p.text[..|p.text|] == p.text;
      StaysUnfinished(s, p.text, |p.text|);
      if Framing.Rest(s) == "" {
        MessageArrives(s, p.text, |p.text|);
      }
    } else {
      OneMoreByte(s, NEWLINE);
    }
  }

  lemma LeftIffWaiting(pieces: seq<Piece>, n: nat)
    requires n <= |pieces| && AllPlain(pieces)
    ensures Left(pieces, n) != "" <==> Waiting(pieces, n)
  {
    if n > 0 {
      OneMorePiece(pieces, n - 1);
    }
  }

  lemma {:induction false} LinesCount(pieces: seq<Piece>, n: nat)
    requires n <= |pieces| && AllPlain(pieces)
    ensures |Messages(pieces, n)| == |Received(pieces, n)| + Bit(Waiting(pieces, n)) + Merged(pieces, n)
  {
    if n > 0 {
      LinesCount(pieces, n - 1);
      OneMorePiece(pieces, n - 1);
      LeftIffWaiting(pieces, n - 1);
    }
  }

  lemma {:induction false} MergedGrows(pieces: seq<Piece>, m: nat, n: nat)
    requires m <= n <= |pieces|
    ensures Merged(pieces, m) <= Merged(pieces, n)
    decreases n
  {
    if m < n {
      MergedGrows(pieces, m, n - 1);
    }
  }

  // ------------------------------------------------------------------
  // All lines there means undivided
  // ------------------------------------------------------------------

  /** While nothing has merged, only the writer of a message that was written last is open. */
  ghost predicate Alternating(pieces: seq<Piece>, n: nat)
    requires n <= |pieces|
  {
    Open(pieces, n) == if Waiting(pieces, n) then {pieces[n - 1].writer} else {}
  }

  lemma {:induction false} NothingMergedAlternates(pieces: seq<Piece>, n: nat)
    requires n <= |pieces| && InOrder(pieces) && Merged(pieces, n) == 0
    ensures Alternating(pieces, n)
  {
    if n > 0 {
      NothingMergedAlternates(pieces, n - 1);
      assert pieces[n - 1].Message? <==> pieces[n - 1].writer !in Open(pieces, n - 1);
    }
  }

  lemma NewlineFollows(pieces: seq<Piece>, n: nat)
    requires n < |pieces| && pieces[n].Message? && InOrder(pieces) && Merged(pieces, |pieces|) == 0
    ensures FollowedByItsNewline(pieces, n)
  {
    MergedGrows(pieces, n + 1, |pieces|);
    NothingMergedAlternates(pieces, n + 1);
    if n + 1 < |pieces| {
      MergedGrows(pieces, n + 2, |pieces|);
      assert pieces[n + 1].Message? <==> pieces[n + 1].writer !in Open(pieces, n + 1);
    }
  }

  lemma NothingMergedIsUndivided(pieces: seq<Piece>)
    requires InOrder(pieces) && Merged(pieces, |pieces|) == 0
    ensures Undivided(pieces)
  {
    forall n | 0 <= n < |pieces| ensures FollowedByItsNewline(pieces, n) {
      if pieces[n].Message? {
        NewlineFollows(pieces, n);
      }
    }
  }

  // ------------------------------------------------------------------
  // Undivided means all lines there
  // ------------------------------------------------------------------

  ghost predicate Arrived(pieces: seq<Piece>, n: nat)
    requires n <= |pieces|
  {
    if Waiting(pieces, n)
    then Left(pieces, n) == pieces[n - 1].text && Messages(pieces, n) == Received(pieces, n) + [pieces[n - 1].text]
    else Left(pieces, n) == "" && Received(pieces, n) == Messages(pieces, n)
  }

  lemma OneMoreArrives(pieces: seq<Piece>, n: nat)
    requires n < |pieces| && AllPlain(pieces) && Arrived(pieces, n)
    requires pieces[n].Message? ==> !Waiting(pieces, n)
    ensures Arrived(pieces, n + 1)
  {
    OneMorePiece(pieces, n);
  }

  lemma {:induction false} UndividedArrives(pieces: seq<Piece>, n: nat)
    requires n <= |pieces| && AllPlain(pieces) && Undivided(pieces)
    ensures Arrived(pieces, n)
  {
    if n > 0 {
      UndividedArrives(pieces, n - 1);
      if n > 1 {
        assert FollowedByItsNewline(pieces, n - 2);
      }
      OneMoreArrives(pieces, n - 1);
    }
  }

  lemma LastIsNewline(pieces: seq<Piece>)
    requires InOrder(pieces) && pieces != []
    ensures pieces[|pieces| - 1].Newline?
  {
    assert Open(pieces, |pieces|) == {};
  }

  /** Main result, for any number of writers: all messages arrive unchanged exactly if no piece
      of another writer comes between a message and its newline.  Otherwise not even the number
      of lines is right. */
  lemma AllArriveIff(pieces: seq<Piece>)
    requires AllPlain(pieces) && InOrder(pieces)
    ensures Undivided(pieces) <==> Received(pieces, |pieces|) == Messages(pieces, |pieces|)
    ensures Undivided(pieces) <==> |Received(pieces, |pieces|)| == |Messages(pieces, |pieces|)|
  {
    LinesCount(pieces, |pieces|);
    if |Received(pieces, |pieces|)| == |Messages(pieces, |pieces|)| {
      NothingMergedIsUndivided(pieces);
    }
    if Undivided(pieces) {
      UndividedArrives(pieces, |pieces|);
      if pieces != [] {
        LastIsNewline(pieces);
      }
    }
  }

  const MERGING := [Message(0, "a"), Message(1, "b"), Newline(0), Newline(1)]

  lemma MergingIsInOrder()
    ensures InOrder(MERGING)
  {
    assert Open(MERGING, 0) == {} && Open(MERGING, 1) == {0} && Open(MERGING, 2) == {0, 1};
    assert Open(MERGING, 3) == {1} && Open(MERGING, 4) == {};
  }

  /** It does happen with two writers. */
  lemma TwoWritersMerge()
    ensures InOrder(MERGING) && Received(MERGING, |MERGING|) != Messages(MERGING, |MERGING|)
  {
    MergingIsInOrder();
    assert AllPlain(MERGING);
    AllArriveIff(MERGING);
    assert !FollowedByItsNewline(MERGING, 0);
  }
}
