/**
 * The offset convergence check (`waitGroupsOffset`).  The admin client's
 * answers are inputs: the topic's first offset, the listed group ids, and
 * for each poll one answer per listed group.  An answer is already parsed;
 * `None` stands for a missing or empty offset.  The method returns how the
 * check ended within the given polls, and the admin calls it made, in order.
 */
module OffsetMonitor {
  import opened Wrappers

  /** `-1`: no messages on the topic, or a group that does not read it. */
  const Sentinel: int := -1

  /** `parseInt(x || '-1', 10)` on a parsed answer: a missing one reads as the sentinel. */
  function OffsetOf(answer: Option<int>): int {
    answer.GetOr(Sentinel)
  }

  /** Whether a group's answer takes part in the comparison. */
  predicate Applicable(answer: Option<int>) {
    OffsetOf(answer) != Sentinel
  }

  /**
   * Convergence of one poll: every group with an applicable offset has
   * committed exactly the topic's offset (vacuously true without such groups).
   */
  ghost predicate Converges(snapshot: int, poll: seq<Option<int>>) {
    forall j :: 0 <= j < |poll| && Applicable(poll[j]) ==> OffsetOf(poll[j]) == snapshot
  }

  /** The `offsetChecks` array one iteration builds: one entry per applicable group. */
  function OffsetChecks(snapshot: int, poll: seq<Option<int>>): seq<bool>
    decreases |poll|
  {
    if poll == [] then []
    else
      var checks := OffsetChecks(snapshot, poll[..|poll| - 1]);
      var last := poll[|poll| - 1];
      if Applicable(last) then checks + [OffsetOf(last) == snapshot] else checks
  }

  /** `offsetChecks.every(Boolean)` holds exactly when the poll converges. */
  lemma {:induction false} EveryCheckIffConverges(snapshot: int, poll: seq<Option<int>>)
    ensures (false !in OffsetChecks(snapshot, poll)) <==> Converges(snapshot, poll)
    decreases |poll|
  {
    if poll != [] {
      var init, last := poll[..|poll| - 1], poll[|poll| - 1];
      EveryCheckIffConverges(snapshot, init);
      assert forall j :: 0 <= j < |init| ==> init[j] == poll[j];
      if Converges(snapshot, poll) {
        assert Converges(snapshot, init) by {
          forall j | 0 <= j < |init| && Applicable(init[j])
            ensures OffsetOf(init[j]) == snapshot
          {
            assert init[j] == poll[j];
          }
        }
      }
    }
  }

  /** A group answering with the sentinel neither blocks nor satisfies convergence. */
  lemma SentinelContributesNothing(snapshot: int, before: seq<Option<int>>, answer: Option<int>, after: seq<Option<int>>)
    requires !Applicable(answer)
    ensures Converges(snapshot, before + [answer] + after) <==> Converges(snapshot, before + after)
  {
    var with, without := before + [answer] + after, before + after;
    if Converges(snapshot, without) {
      forall j | 0 <= j < |with| && Applicable(with[j])
        ensures OffsetOf(with[j]) == snapshot
      {
        if j < |before| {
          assert with[j] == without[j];
        } else {
          assert with[j] == without[j - 1];
        }
      }
    }
    if Converges(snapshot, with) {
      forall j | 0 <= j < |without| && Applicable(without[j])
        ensures OffsetOf(without[j]) == snapshot
      {
        if j < |before| {
          assert without[j] == with[j];
        } else {
          assert without[j] == with[j + 1];
        }
      }
    }
  }

  /** The admin client calls, and the 100 ms sleep between polls. */
  datatype AdminCall = FetchTopicOffsets | ListGroups | FetchOffsets(groupId: string) | Sleep

  /** One poll: an offset fetch for every listed group, in listing order. */
  function PollCalls(groups: seq<string>): seq<AdminCall> {
    seq(|groups|, j requires 0 <= j < |groups| => FetchOffsets(groups[j]))
  }

  /** `n` copies of `s`, one after another. */
  function Repeat<T>(s: seq<T>, n: nat): seq<T> {
    if n == 0 then [] else Repeat(s, n - 1) + s
  }

  /** The polls after the group listing never fetch the topic offset or list groups again. */
  lemma {:induction false} PollingNeverRelists(groups: seq<string>, n: nat)
    ensures ListGroups !in Repeat(PollCalls(groups) + [Sleep], n)
    ensures FetchTopicOffsets !in Repeat(PollCalls(groups) + [Sleep], n)
  {
    if n > 0 {
      PollingNeverRelists(groups, n - 1);
    }
  }

  /** How the check stands after the given polls. */
  datatype Watch = NothingProduced | ConvergedAt(poll: nat) | StillPolling

  /**
   * `waitGroupsOffset` over a finite prefix of its polls.  `ConvergedAt(n)`
   * is the first converging poll; `StillPolling` means none of the given
   * polls converged and `waitGroupsOffset` would sleep and poll again.
   */
  method WaitGroupsOffset(topicOffset: Option<int>, groups: seq<string>, polls: seq<seq<Option<int>>>)
    returns (watch: Watch, calls: seq<AdminCall>)
    requires forall i :: 0 <= i < |polls| ==> |polls[i]| == |groups|
    ensures OffsetOf(topicOffset) == Sentinel <==> watch == NothingProduced
    ensures watch == NothingProduced ==> calls == [FetchTopicOffsets]
    ensures watch != NothingProduced ==>
      |calls| >= 2 && calls[..2] == [FetchTopicOffsets, ListGroups] &&
      ListGroups !in calls[2..] && FetchTopicOffsets !in calls[2..]
    ensures watch.ConvergedAt? ==>
      watch.poll < |polls| &&
      Converges(OffsetOf(topicOffset), polls[watch.poll]) &&
      (forall m :: 0 <= m < watch.poll ==> !Converges(OffsetOf(topicOffset), polls[m])) &&
      calls == [FetchTopicOffsets, ListGroups] + Repeat(PollCalls(groups) + [Sleep], watch.poll) + PollCalls(groups)
    ensures watch == StillPolling ==>
      (forall m :: 0 <= m < |polls| ==> !Converges(OffsetOf(topicOffset), polls[m])) &&
      calls == [FetchTopicOffsets, ListGroups] + Repeat(PollCalls(groups) + [Sleep], |polls|)
  {
    calls := [FetchTopicOffsets];
    var firstOffset := OffsetOf(topicOffset);
    if firstOffset == Sentinel {
      return NothingProduced, calls;
    }
    calls := calls + [ListGroups];
    ghost var listed := calls;
    watch := StillPolling;
    var n := 0;
    while n < |polls|
      invariant 0 <= n <= |polls|
      invariant watch == StillPolling
      invariant forall m :: 0 <= m < n ==> !Converges(firstOffset, polls[m])
      invariant calls == listed + Repeat(PollCalls(groups) + [Sleep], n)
    {
      var poll := polls[n];
      ghost var before := calls;
      var offsetChecks: seq<bool> := [];
      for j := 0 to |groups|
        invariant offsetChecks == OffsetChecks(firstOffset, poll[..j])
        invariant calls == before + PollCalls(groups[..j])
      {
        calls := calls + [FetchOffsets(groups[j])];
        assert PollCalls(groups[..j + 1]) == PollCalls(groups[..j]) + [FetchOffsets(groups[j])];
        assert poll[..j + 1][..j] == poll[..j];
        var groupOffset := OffsetOf(poll[j]);
        if groupOffset == Sentinel {
          continue;
        }
        offsetChecks := offsetChecks + [firstOffset == groupOffset];
      }
      assert poll[..|groups|] == poll;
      assert groups[..|groups|] == groups;
      EveryCheckIffConverges(firstOffset, poll);
      if false !in offsetChecks {
        watch := ConvergedAt(n);
        break;
      }
      calls := calls + [Sleep];
      n := n + 1;
    }
    PollingNeverRelists(groups, n);
    assert calls[2..] == calls[|listed|..];
  }
}
