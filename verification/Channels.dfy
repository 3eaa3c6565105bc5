/**
  A bounded channel fed from a growing log by a sender that never waits: an event that finds the
  channel full closes it. What its reader gets is the log from where the channel started.
 */
module Channels {
  /**
    `from` is the log position its history starts at, `taken` what its reader has been given,
    `buffer` what the channel holds.
   */
  datatype Channel<T> = Channel(from: nat, taken: seq<T>, buffer: seq<T>, open: bool)

  function Offered<T>(ch: Channel<T>, capacity: nat, e: T): Channel<T> {
    if !ch.open then ch
    else if |ch.buffer| < capacity then ch.(buffer := ch.buffer + [e])
    else Shut(ch)
  }

  function Taken<T>(ch: Channel<T>): Channel<T>
    requires ch.buffer != []
  {
    ch.(taken := ch.taken + [ch.buffer[0]], buffer := ch.buffer[1..])
  }

  function Shut<T>(ch: Channel<T>): Channel<T> { ch.(open := false) }

  /** What was given and is still held is the log from the start, whole while the channel is open. */
  ghost predicate FollowsLog<T>(log: seq<T>, ch: Channel<T>, capacity: nat) {
    ch.from <= |log| && ch.taken + ch.buffer <= log[ch.from..] && |ch.buffer| <= capacity &&
    (ch.open ==> ch.taken + ch.buffer == log[ch.from..])
  }

  lemma {:induction false} OfferedFollows<T>(log: seq<T>, ch: Channel<T>, capacity: nat, e: T)
    requires FollowsLog(log, ch, capacity)
    ensures FollowsLog(log + [e], Offered(ch, capacity, e), capacity)
  {
    assert (log + [e])[ch.from..] == log[ch.from..] + [e];
    if ch.open && |ch.buffer| < capacity {
      assert ch.taken + (ch.buffer + [e]) == (ch.taken + ch.buffer) + [e];
    }
  }

  lemma {:induction false} TakenFollows<T>(log: seq<T>, ch: Channel<T>, capacity: nat)
    requires FollowsLog(log, ch, capacity) && ch.buffer != []
    ensures FollowsLog(log, Taken(ch), capacity) && Taken(ch).taken + Taken(ch).buffer == ch.taken + ch.buffer
  {
    assert ch.taken + ch.buffer == ch.taken + [ch.buffer[0]] + ch.buffer[1..];
  }

  lemma ShutFollows<T>(log: seq<T>, ch: Channel<T>, capacity: nat)
    requires FollowsLog(log, ch, capacity)
    ensures FollowsLog(log, Shut(ch), capacity)
  {
  }
}
