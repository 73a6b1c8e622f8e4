/**
  The order in which streams send (src/proto/streams/prioritize.rs). What the methods of
  `Prioritizer` say about the send queue is one of three changes; here is what follows for whole runs.
 */
module SendTurns {
  type Key = nat

  /**
    One round of the send loop (`PopOne`), an operation of the application or the peer, or a stream
    that may now be opened (`OpenNext`).
   */
  datatype Change = Turn | Arrivals | Opening

  predicate Follows(q: seq<Key>, c: Change, r: seq<Key>) {
    match c
    case Turn => q != [] && q[1..] <= r
    case Arrivals => q <= r
    case Opening => r != [] && [r[0]] + q <= r
  }

  /** The queue through a run: `qs[j]` before, `qs[j + 1]` after the change `cs[j]`. */
  predicate Run(qs: seq<seq<Key>>, cs: seq<Change>) {
    |qs| == |cs| + 1 && forall j :: 0 <= j < |cs| ==> Follows(qs[j], cs[j], qs[j + 1])
  }

  /** The `j`-th change is a turn of stream `x`. */
  predicate TurnOf(qs: seq<seq<Key>>, cs: seq<Change>, j: nat, x: Key)
    requires j < |cs| < |qs|
  {
    cs[j].Turn? && qs[j] != [] && qs[j][0] == x
  }

  /** It has been the stream's turn. */
  predicate HadTurn(qs: seq<seq<Key>>, cs: seq<Change>, x: Key)
    requires Run(qs, cs)
  {
    exists j :: 0 <= j < |cs| && TurnOf(qs, cs, j, x)
  }

  function Count(cs: seq<Change>, c: Change): (n: nat)
    ensures n <= |cs|
  {
    if cs == [] then 0 else Count(cs[..|cs| - 1], c) + if cs[|cs| - 1] == c then 1 else 0
  }

  /** The run up to the `j`-th change. */
  lemma RunPrefix(qs: seq<seq<Key>>, cs: seq<Change>, j: nat)
    requires Run(qs, cs) && j <= |cs|
    ensures Run(qs[..j + 1], cs[..j])
    ensures forall x :: HadTurn(qs[..j + 1], cs[..j], x) ==> HadTurn(qs, cs, x)
  {
    forall x | HadTurn(qs[..j + 1], cs[..j], x) ensures HadTurn(qs, cs, x) {
      var m :| 0 <= m < j && TurnOf(qs[..j + 1], cs[..j], m, x);
      assert TurnOf(qs, cs, m, x);
    }
  }

  /**
    A stream that waits at place `i` gets its turn after at most `i` turns of others and of streams
    opened meanwhile: until then it moves up with each turn.
   */
  lemma {:induction false} MovesUp(qs: seq<seq<Key>>, cs: seq<Change>, i: nat)
    requires Run(qs, cs) && i < |qs[0]| && !HadTurn(qs, cs, qs[0][i])
    ensures Count(cs, Turn) <= i + Count(cs, Opening)
    ensures var place := i - Count(cs, Turn) + Count(cs, Opening);
            place < |qs[|cs|]| && qs[|cs|][place] == qs[0][i]
    decreases |cs|
  {
    if cs != [] {
      var n := |cs| - 1;
      RunPrefix(qs, cs, n);
      MovesUp(qs[..n + 1], cs[..n], i);
      var place := i - Count(cs[..n], Turn) + Count(cs[..n], Opening);
      assert qs[..n + 1][|cs[..n]|] == qs[n] && qs[..n + 1][0] == qs[0];
      assert Follows(qs[n], cs[n], qs[n + 1]);
      match cs[n]
      case Turn =>
        assert place > 0 by {
          assert !TurnOf(qs, cs, n, qs[0][i]);
        }
        assert qs[n][1..][place - 1] == qs[n][place];
      case Arrivals =>
      case Opening =>
        assert ([qs[n + 1][0]] + qs[n])[place + 1] == qs[n][place];
    }
  }

  /** As long as nothing is opened, turns are taken in the order of the queue, up to one that has had none. */
  lemma TakenInOrder(qs: seq<seq<Key>>, cs: seq<Change>, i: nat, j: nat, x: Key)
    requires Run(qs, cs) && i < |qs[0]| && !HadTurn(qs, cs, qs[0][i])
    requires j < |cs| && TurnOf(qs, cs, j, x) && Count(cs[..j], Opening) == 0
    ensures Count(cs[..j], Turn) < i && x == qs[0][Count(cs[..j], Turn)]
  {
    RunPrefix(qs, cs, j);
    var before, after := qs[..j + 1], cs[..j];
    MovesUp(before, after, i);
    var t := Count(after, Turn);
    assert before[0] == qs[0] && before[|after|] == qs[j];
    assert qs[j][i - t] == qs[0][i];
    assert t != i by {
      assert !TurnOf(qs, cs, j, qs[0][i]);
    }
    FirstInLine(before, after, i);
  }

  /** After `t` turns the `t`-th is first. */
  lemma {:induction false} FirstInLine(qs: seq<seq<Key>>, cs: seq<Change>, i: nat)
    requires Run(qs, cs) && i < |qs[0]| && Count(cs, Opening) == 0 && Count(cs, Turn) <= i
    ensures qs[0][Count(cs, Turn)..] <= qs[|cs|]
    decreases |cs|
  {
    if cs != [] {
      var n := |cs| - 1;
      RunPrefix(qs, cs, n);
      FirstInLine(qs[..n + 1], cs[..n], i);
      var t := Count(cs[..n], Turn);
      assert qs[..n + 1][|cs[..n]|] == qs[n] && qs[..n + 1][0] == qs[0];
      assert Follows(qs[n], cs[n], qs[n + 1]);
      if cs[n].Turn? {
        var rest := qs[0][t..];
        assert rest == qs[n][..|rest|] && rest[1..] == qs[n][1..][..|rest| - 1] && rest[1..] == qs[0][t + 1..];
      }
    }
  }

  /** So no stream has two turns while another that was waiting has had none. */
  lemma NobodyTwice(qs: seq<seq<Key>>, cs: seq<Change>, i: nat, j: nat, k: nat, x: Key)
    requires Run(qs, cs) && i < |qs[0]| && !HadTurn(qs, cs, qs[0][i]) && Count(cs, Opening) == 0
    requires forall a, b :: 0 <= a < b < |qs[0]| ==> qs[0][a] != qs[0][b]
    requires j < k < |cs| && TurnOf(qs, cs, j, x)
    ensures !TurnOf(qs, cs, k, x)
  {
    CountPrefix(cs, j, Opening);
    CountPrefix(cs, k, Opening);
    TakenInOrder(qs, cs, i, j, x);
    CountPrefix(cs[..k], j + 1, Turn);
    assert cs[..k][..j + 1] == cs[..j + 1] && cs[..j + 1][..j] == cs[..j];
    if TurnOf(qs, cs, k, x) {
      TakenInOrder(qs, cs, i, k, x);
    }
  }

  lemma {:induction false} CountPrefix(cs: seq<Change>, j: nat, c: Change)
    requires j <= |cs|
    ensures Count(cs[..j], c) <= Count(cs, c)
  {
    if j < |cs| {
      var n := |cs| - 1;
      CountPrefix(cs[..n], j, c);
      assert cs[..n][..j] == cs[..j];
    } else {
      assert cs[..j] == cs;
    }
  }
}
