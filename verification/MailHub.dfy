/** The hub's mail and its inbox channels, changed in place under its lock. */
module MailHub {
  import opened Prelude
  import opened Mailbox

  class MailHub {
    var messages: seq<Message>
    var waiters: map<Project, set<nat>>
    var tokens: set<nat>

    constructor ()
      ensures messages == [] && waiters == map[] && tokens == {}
    {
      messages, waiters, tokens := [], map[], {};
    }

    method Register(project: Project, c: nat)
      modifies `waiters, `tokens
      ensures waiters == Joined(old(waiters), project, c) && tokens == old(tokens) - {c}
    {
      if project !in waiters {
        waiters := waiters[project := {}];
      }
      waiters := waiters[project := waiters[project] + {c}];
      tokens := tokens - {c};
    }

    method Unregister(project: Project, c: nat)
      modifies `waiters
      ensures waiters == Parted(old(waiters), project, c)
    {
      if project in waiters {
        waiters := waiters[project := waiters[project] - {c}];
      }
    }

    /** A token for every channel of the project that does not hold one. */
    method Wake(project: Project)
      modifies `tokens
      ensures tokens == old(tokens) + WaitersOf(waiters, project)
    {
      var left := WaitersOf(waiters, project);
      while left != {}
        invariant left <= WaitersOf(waiters, project)
        invariant tokens == old(tokens) + (WaitersOf(waiters, project) - left)
      {
        var c :| c in left;
        if c !in tokens {
          tokens := tokens + {c};
        }
        left := left - {c};
      }
    }

    /** Marks read and returns the delivered mail that is the reader's. */
    method PopUnread(r: Reader) returns (found: seq<nat>)
      modifies `messages
      ensures messages == Popped(old(messages), r) && found == Unread(old(messages), r)
      ensures forall i: nat ::
                i in found <==> i < |messages| && old(messages)[i].status == Delivered && !old(messages)[i].read
                                && old(messages)[i].origin.project == r.project
                                && old(messages)[i].origin.recipient in r.aliases
                                && old(messages)[i].origin.owner in {None, Some(r.account)}
    {
      hide Readable, Unread, Popped;
      found := [];
      NonePopped(messages, r);
      var i := 0;
      while i < |messages|
        invariant 0 <= i <= |messages| == |old(messages)|
        invariant messages == Popped(old(messages)[..i], r) + old(messages)[i..]
        invariant found == Unread(old(messages)[..i], r)
      {
        OneMorePopped(old(messages), i, r);
        ghost var before := messages;
        if Readable(messages[i], r) {
          found := found + [i];
          messages := messages[i := messages[i].(read := true)];
        }
        InPlace(before, messages, Popped(old(messages)[..i], r), old(messages), i);
        i := i + 1;
      }
      assert old(messages)[..i] == old(messages);
      forall k: nat { LookExactly(old(messages), r, k); }
    }

    /** A person's decision on the message at place i, looked for among all of them. */
    method DecideHeld(project: Project, i: nat, v: Viewer, approve: bool) returns (outcome: Outcome)
      modifies `messages, `tokens
      ensures (messages, outcome) == Decide(old(messages), project, i, v, approve)
      ensures tokens == if outcome == Decided && approve then old(tokens) + WaitersOf(waiters, project) else old(tokens)
    {
      if i >= |messages| || messages[i].origin.project != project || !MayDecide(v, messages[i]) {
        return NotFound;
      }
      if messages[i].status != Held {
        return NotHeld;
      }
      messages := messages[i := messages[i].(status := if approve then Delivered else Rejected, decider := Some(v))];
      if approve {
        Wake(project);
      }
      return Decided;
    }

    /** One message to a recipient after another, and then one wake if any of them was delivered. */
    method Send(project: Project, origins: seq<Origin>) returns (delivered: bool)
      requires OfProject(origins, project)
      modifies `messages, `tokens
      ensures messages == old(messages) + seq(|origins|, i requires 0 <= i < |origins| => Stored(origins[i]))
      ensures delivered == exists i :: 0 <= i < |origins| && !NeedsApproval(origins[i])
      ensures tokens == if delivered then old(tokens) + WaitersOf(waiters, project) else old(tokens)
    {
      hide NeedsApproval;
      delivered := false;
      var i := 0;
      while i < |origins|
        invariant 0 <= i <= |origins| && tokens == old(tokens)
        invariant messages == old(messages) + seq(i, k requires 0 <= k < i => Stored(origins[k]))
        invariant delivered == exists k :: 0 <= k < i && !NeedsApproval(origins[k])
      {
        messages := messages + [Stored(origins[i])];
        delivered := delivered || !NeedsApproval(origins[i]);
        i := i + 1;
      }
      if delivered {
        Wake(project);
      }
    }
  }

  lemma NonePopped(messages: seq<Message>, r: Reader)
    ensures Popped(messages[..0], r) + messages[0..] == messages && Unread(messages[..0], r) == []
  {
  }

  lemma OneMorePopped(messages: seq<Message>, i: nat, r: Reader)
    requires i < |messages|
    ensures Unread(messages[..i + 1], r) == Unread(messages[..i], r) + if Readable(messages[i], r) then [i] else []
    ensures Popped(messages[..i + 1], r)
            == Popped(messages[..i], r) + [if Readable(messages[i], r) then messages[i].(read := true) else messages[i]]
  {
    hide Readable;
    assert messages[..i + 1][..i] == messages[..i];
  }

  lemma InPlace(before: seq<Message>, after: seq<Message>, popped: seq<Message>, messages: seq<Message>, i: nat)
    requires i < |messages| && |popped| == i && before == popped + messages[i..] && |after| == |before|
    requires after == before[i := after[i]]
    ensures after == popped + [after[i]] + messages[i + 1..] && before[i] == messages[i]
  {
  }
}
