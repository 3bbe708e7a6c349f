/** The message and notification queues of an agent (verl/checkpoint_engine/nixl_checkpoint_engine.py,
    `NixlAgent.read_message` and `get_notification`). Everything that will ever arrive is given as a
    list; running out of it means waiting forever. */
module NixlMailbox {
  import opened Outcomes

  type Mail = seq<int>

  /** A `defaultdict` of queues. */
  function Queue(queues: map<string, seq<Mail>>, name: string): seq<Mail> {
    if name in queues then queues[name] else []
  }

  /** Per message its sender. */
  function From(arriving: seq<(string, Mail)>, name: string): seq<Mail> {
    if arriving == [] then []
    else (if arriving[0].0 == name then [arriving[0].1] else []) + From(arriving[1..], name)
  }

  /** One result of polling for notifications: the senders and what each has sent, in dictionary order. */
  type Poll = seq<(string, seq<Mail>)>

  function Extended(queues: map<string, seq<Mail>>, poll: Poll): map<string, seq<Mail>> {
    if poll == [] then queues
    else
      var before := Extended(queues, poll[..|poll| - 1]);
      var (name, more) := poll[|poll| - 1];
      before[name := Queue(before, name) + more]
  }

  /** What one poll brings from a sender, and what all polls do. */
  function Brought(poll: Poll, name: string): seq<Mail> {
    if poll == [] then []
    else
      var last := poll[|poll| - 1];
      Brought(poll[..|poll| - 1], name) + if last.0 == name then last.1 else []
  }

  function Sent(polls: seq<Poll>, name: string): seq<Mail> {
    if polls == [] then [] else Brought(polls[0], name) + Sent(polls[1..], name)
  }

  /** Senders are only listed with what they sent. */
  ghost predicate NoEmptyEntry(polls: seq<Poll>) {
    forall i, j :: 0 <= i < |polls| && 0 <= j < |polls[i]| ==> polls[i][j].1 != []
  }

  /** The first poll that brings anything, if there is one. */
  function FirstNews(polls: seq<Poll>): (n: nat)
    ensures n <= |polls| && (n < |polls| ==> polls[n] != []) && forall i :: 0 <= i < n ==> polls[i] == []
  {
    if polls == [] || polls[0] != [] then 0 else FirstNews(polls[1..]) + 1
  }

  /** Whose notification `get_notification` returns: the sender asked for if something of its is queued,
      otherwise whoever comes last in the first poll that brings anything. */
  function Answers(queues: map<string, seq<Mail>>, polls: seq<Poll>, name: string): Option<string> {
    if Queue(queues, name) != [] then Some(name)
    else
      var n := FirstNews(polls);
      if n == |polls| then None else Some(polls[n][|polls[n]| - 1].0)
  }

  /** The queues when `get_notification` stops waiting, and the polls it has not made. */
  function Seen(queues: map<string, seq<Mail>>, polls: seq<Poll>, name: string): map<string, seq<Mail>> {
    if Queue(queues, name) != [] || FirstNews(polls) == |polls| then queues else Extended(queues, polls[FirstNews(polls)])
  }

  function Rest(queues: map<string, seq<Mail>>, polls: seq<Poll>, name: string): seq<Poll> {
    if Queue(queues, name) != [] || FirstNews(polls) == |polls| then polls else polls[FirstNews(polls) + 1..]
  }

  /** The oldest notification of an agent is taken from its queue. */
  ghost predicate Taken(queues: map<string, seq<Mail>>, name: string, mail: Mail, left: map<string, seq<Mail>>) {
    Queue(queues, name) != [] && mail == Queue(queues, name)[0] && left == queues[name := Queue(queues, name)[1..]]
  }

  /** Queueing an arrival changes nobody's messages. */
  lemma {:induction false} ForOne(queues: map<string, seq<Mail>>, arriving: seq<(string, Mail)>, name: string)
    requires arriving != []
    ensures var (sender, mail) := arriving[0];
            Queue(queues[sender := Queue(queues, sender) + [mail]], name) + From(arriving[1..], name)
            == Queue(queues, name) + From(arriving, name)
  {
    var (sender, mail) := arriving[0];
    if name == sender {
      assert Queue(queues, name) + [mail] + From(arriving[1..], name) == Queue(queues, name) + ([mail] + From(arriving[1..], name));
    } else {
      assert From(arriving, name) == From(arriving[1..], name);
    }
  }

  lemma {:induction false} ForAll(queues: map<string, seq<Mail>>, arriving: seq<(string, Mail)>)
    ensures arriving == [] ==> forall name: string :: From(arriving, name) == []
    ensures arriving != [] ==>
      var (sender, mail) := arriving[0];
      forall name: string ::
        Queue(queues[sender := Queue(queues, sender) + [mail]], name) + From(arriving[1..], name)
        == Queue(queues, name) + From(arriving, name)
  {
    if arriving != [] {
      hide Queue, From;
      forall name: string {
        ForOne(queues, arriving, name);
      }
    }
  }

  lemma {:induction false} ExtendedQueue(queues: map<string, seq<Mail>>, poll: Poll, name: string)
    ensures Queue(Extended(queues, poll), name) == Queue(queues, name) + Brought(poll, name)
  {
    if poll != [] {
      ExtendedQueue(queues, poll[..|poll| - 1], name);
    }
  }

  lemma FirstPoll(polls: seq<Poll>, name: string)
    requires polls != []
    ensures Sent(polls, name) == Brought(polls[0], name) + Sent(polls[1..], name)
    ensures FirstNews(polls) == if polls[0] == [] then FirstNews(polls[1..]) + 1 else 0
    ensures polls[0] == [] ==> Sent(polls, name) == Sent(polls[1..], name)
  {
  }

  lemma {:induction false} SentAfterNews(polls: seq<Poll>, name: string)
    ensures var n := FirstNews(polls);
            Sent(polls, name) == if n == |polls| then [] else Brought(polls[n], name) + Sent(polls[n + 1..], name)
  {
    if polls != [] {
      FirstPoll(polls, name);
      hide FirstNews, Sent, Brought;
      if polls[0] == [] {
        var n := FirstNews(polls[1..]);
        SentAfterNews(polls[1..], name);
        assert n < |polls| - 1 ==> polls[1..][n + 1..] == polls[n + 2..];
      }
    }
  }

  /** Waiting moves notifications from polls to queues; none is lost, added or reordered. */
  lemma SeenKeeps(queues: map<string, seq<Mail>>, polls: seq<Poll>, name: string, other: string)
    ensures Queue(Seen(queues, polls, name), other) + Sent(Rest(queues, polls, name), other)
            == Queue(queues, other) + Sent(polls, other)
  {
    hide Queue, Extended, Sent, Brought;
    if Queue(queues, name) == [] && FirstNews(polls) < |polls| {
      var news := polls[FirstNews(polls)];
      SentAfterNews(polls, other);
      ExtendedQueue(queues, news, other);
    }
  }

  lemma NothingSent(queues: map<string, seq<Mail>>, polls: seq<Poll>, name: string)
    requires Answers(queues, polls, name).None?
    ensures Queue(queues, name) == [] && forall i :: 0 <= i < |polls| ==> polls[i] == []
    ensures forall other: string :: Sent(polls, other) == []
  {
    forall other: string ensures Sent(polls, other) == [] {
      SentAfterNews(polls, other);
    }
  }

  lemma TakenKeeps(queues: map<string, seq<Mail>>, name: string, mail: Mail, left: map<string, seq<Mail>>, other: string)
    requires Taken(queues, name, mail, left)
    ensures (if other == name then [mail] + Queue(left, other) else Queue(left, other)) == Queue(queues, other)
  {
  }

  /** The last entry of the next poll that brings anything is this agent's. */
  ghost predicate LastNewsIs(polls: seq<Poll>, name: string) {
    var n := FirstNews(polls);
    n < |polls| && polls[n][|polls[n]| - 1].0 == name
  }

  lemma WhoseAnswer(queues: map<string, seq<Mail>>, polls: seq<Poll>, name: string)
    ensures Answers(queues, polls, name) == Some(name) <==> Queue(queues, name) != [] || LastNewsIs(polls, name)
    ensures Answers(queues, polls, name).Some? ==> Queue(queues, name) != [] || exists i :: 0 <= i < |polls| && polls[i] != []
  {
    var n := FirstNews(polls);
    assert n < |polls| ==> polls[n] != [];
  }

  /** The notification taken is its sender's next one, and nothing else has changed for anybody. */
  lemma AnswerMeans(queues: map<string, seq<Mail>>, polls: seq<Poll>, name: string, mail: Mail, left: map<string, seq<Mail>>)
    requires Answers(queues, polls, name).Some?
    requires Taken(Seen(queues, polls, name), Answers(queues, polls, name).value, mail, left)
    ensures Queue(queues, name) != [] || exists i :: 0 <= i < |polls| && polls[i] != []
    ensures var whose, rest := Answers(queues, polls, name).value, Rest(queues, polls, name);
            && (whose == name <==> Queue(queues, name) != [] || LastNewsIs(polls, name))
            && [mail] + (Queue(left, whose) + Sent(rest, whose)) == Queue(queues, whose) + Sent(polls, whose)
            && forall other: string :: other != whose ==>
                 Queue(left, other) + Sent(rest, other) == Queue(queues, other) + Sent(polls, other)
  {
    hide Taken, Seen, Rest, Sent, Queue, Answers, LastNewsIs, FirstNews;
    WhoseAnswer(queues, polls, name);
    var whose := Answers(queues, polls, name).value;
    forall other: string
      ensures (if other == whose then [mail] else []) + (Queue(left, other) + Sent(Rest(queues, polls, name), other))
              == Queue(queues, other) + Sent(polls, other)
    {
      AnswerFor(queues, polls, name, whose, mail, left, other);
    }
  }

  lemma AnswerFor(queues: map<string, seq<Mail>>, polls: seq<Poll>, name: string, whose: string, mail: Mail,
                  left: map<string, seq<Mail>>, other: string)
    requires Taken(Seen(queues, polls, name), whose, mail, left)
    ensures (if other == whose then [mail] else []) + (Queue(left, other) + Sent(Rest(queues, polls, name), other))
            == Queue(queues, other) + Sent(polls, other)
  {
    hide Taken, Seen, Rest, Sent, Queue;
    SeenKeeps(queues, polls, name, other);
    TakenKeeps(Seen(queues, polls, name), whose, mail, left, other);
    AddFront([mail], Queue(left, other), Sent(Rest(queues, polls, name), other));
  }

  lemma AddFront(first: seq<Mail>, own: seq<Mail>, rest: seq<Mail>)
    ensures first + own + rest == first + (own + rest)
    ensures [] + (own + rest) == own + rest
  {
  }

  /** One agent comes last in every poll that brings anything, as when nobody else ever notifies. */
  ghost predicate AlwaysLast(polls: seq<Poll>, name: string) {
    forall i :: 0 <= i < |polls| && polls[i] != [] ==> polls[i][|polls[i]| - 1].0 == name
  }

  lemma RestIsSuffix(queues: map<string, seq<Mail>>, polls: seq<Poll>, name: string)
    requires AlwaysLast(polls, name) && NoEmptyEntry(polls)
    ensures AlwaysLast(Rest(queues, polls, name), name) && NoEmptyEntry(Rest(queues, polls, name))
    ensures Answers(queues, polls, name).Some? ==> Answers(queues, polls, name) == Some(name)
  {
    hide Extended, Queue;
    var n := FirstNews(polls);
    if n < |polls| {
      assert polls[n][|polls[n]| - 1].0 == name;
      SuffixKeeps(polls, n + 1, name);
    }
  }

  lemma SuffixKeeps(polls: seq<Poll>, n: nat, name: string)
    requires n <= |polls| && AlwaysLast(polls, name) && NoEmptyEntry(polls)
    ensures AlwaysLast(polls[n..], name) && NoEmptyEntry(polls[n..])
  {
    forall i | 0 <= i < |polls| - n ensures polls[n..][i] == polls[n + i] {
    }
  }

  lemma ExtendedNone(queues: map<string, seq<Mail>>)
    ensures Extended(queues, []) == queues
  {
  }

  lemma ExtendedNext(queues: map<string, seq<Mail>>, poll: Poll, i: nat)
    requires i < |poll|
    ensures var before := Extended(queues, poll[..i]);
            Extended(queues, poll[..i + 1]) == before[poll[i].0 := Queue(before, poll[i].0) + poll[i].1]
  {
    hide Queue;
    assert poll[..i + 1][..i] == poll[..i];
  }

  /** Polls that brought nothing have been skipped. */
  ghost predicate Skipped(polls: seq<Poll>, left: seq<Poll>) {
    && |left| <= |polls| && left == polls[|polls| - |left|..]
    && FirstNews(polls) == |polls| - |left| + FirstNews(left)
  }

  lemma AtOnce(queues: map<string, seq<Mail>>, polls: seq<Poll>, name: string)
    ensures Skipped(polls, polls)
    ensures Queue(queues, name) != [] ==>
      Answers(queues, polls, name) == Some(name) && Seen(queues, polls, name) == queues && Rest(queues, polls, name) == polls
  {
  }

  lemma NextPoll(queues: map<string, seq<Mail>>, polls: seq<Poll>, left: seq<Poll>, name: string)
    requires Queue(queues, name) == [] && Skipped(polls, left)
    ensures left == [] ==> Answers(queues, polls, name).None?
    ensures left != [] && left[0] == [] ==> Skipped(polls, left[1..])
    ensures left != [] && left[0] != [] ==>
      && Answers(queues, polls, name) == Some(left[0][|left[0]| - 1].0)
      && Seen(queues, polls, name) == Extended(queues, left[0]) && Rest(queues, polls, name) == left[1..]
  {
    hide Extended;
  }

  class NixlAgent {
    var messages: map<string, seq<Mail>>
    var arriving: seq<(string, Mail)>
    var notifications: map<string, seq<Mail>>
    var polls: seq<Poll>

    constructor (arriving: seq<(string, Mail)>, polls: seq<Poll>)
      ensures messages == map[] && notifications == map[] && this.arriving == arriving && this.polls == polls
    {
      messages, notifications, this.arriving, this.polls := map[], map[], arriving, polls;
    }

    /** All messages of an agent not yet read, in the order in which they were sent. */
    function Unread(name: string): seq<Mail>
      reads this
    {
      Queue(messages, name) + From(arriving, name)
    }

    /** Reads the next message of this agent; those of other agents stay in order for their readers. */
    method ReadMessage(name: string) returns (r: Option<Mail>)
      modifies this`messages, this`arriving
      ensures r.None? <==> old(Unread(name)) == []
      ensures r.Some? ==> [r.value] + Unread(name) == old(Unread(name))
      ensures forall other: string :: other != name ==> Unread(other) == old(Unread(other))
    {
      hide From;
      while Queue(messages, name) == []
        invariant forall other: string :: Unread(other) == old(Unread(other))
        decreases |arriving|
      {
        ForAll(messages, arriving);
        if arriving == [] { return None; }
        var (sender, message) := arriving[0];
        arriving := arriving[1..];
        messages := messages[sender := Queue(messages, sender) + [message]];
      }
      r := Some(messages[name][0]);
      messages := messages[name := messages[name][1..]];
    }

    /** All notifications of an agent not yet returned, in the order in which they were sent. */
    function Pending(name: string): seq<Mail>
      reads this
    {
      Queue(notifications, name) + Sent(polls, name)
    }

    /** Waits for a notification. The loop over a poll's entries reuses the name of the sender asked
        for, so the last entry decides whose notification is returned: whoever's it is, it is that
        agent's next one, and nobody's are lost. */
    method GetNotification(remoteName: string) returns (r: Option<(string, Mail)>)
      requires NoEmptyEntry(polls)
      modifies this`notifications, this`polls
      ensures NoEmptyEntry(polls)
      ensures r.None? <==> old(Queue(notifications, remoteName)) == [] && forall i :: 0 <= i < |old(polls)| ==> old(polls)[i] == []
      ensures r.Some? ==>
        (r.value.0 == remoteName <==> old(Queue(notifications, remoteName)) != [] || LastNewsIs(old(polls), remoteName))
      ensures r.Some? ==> [r.value.1] + Pending(r.value.0) == old(Pending(r.value.0))
      ensures forall other: string :: (r.Some? ==> other != r.value.0) ==> Pending(other) == old(Pending(other))
      ensures r.None? ==> Pending(remoteName) == []
      ensures r.Some? ==> Answers(old(notifications), old(polls), remoteName) == Some(r.value.0)
      ensures r.Some? ==> Taken(Seen(old(notifications), old(polls), remoteName), r.value.0, r.value.1, notifications)
      ensures r.Some? ==> polls == Rest(old(notifications), old(polls), remoteName)
    {
      hide Extended, FirstNews, Answers, Seen, Rest, Skipped;
      AtOnce(notifications, polls, remoteName);
      var name := remoteName;
      ghost var found := Queue(notifications, name) != [];
      while Queue(notifications, name) == []
        invariant NoEmptyEntry(polls)
        invariant found <==> Queue(notifications, name) != []
        invariant !found ==> name == remoteName && notifications == old(notifications) && Skipped(old(polls), polls)
        invariant found ==> Answers(old(notifications), old(polls), remoteName) == Some(name)
                            && notifications == Seen(old(notifications), old(polls), remoteName)
                            && polls == Rest(old(notifications), old(polls), remoteName)
        decreases |polls|
      {
        NextPoll(notifications, old(polls), polls, remoteName);
        if polls == [] {
          NothingSent(notifications, old(polls), remoteName);
          return None;
        }
        var poll := polls[0];
        polls := polls[1..];
        name := Collect(poll, name);
        found := poll != [];
      }
      r := TakeFrom(name);
      AnswerMeans(old(notifications), old(polls), remoteName, r.value.1, notifications);
    }

    /** Notifications awaited one after another, each from the same agent. */
    method AwaitEach(remoteName: string, count: nat) returns (taken: seq<Mail>)
      requires NoEmptyEntry(polls) && AlwaysLast(polls, remoteName)
      modifies this`notifications, this`polls
      ensures taken + Pending(remoteName) == old(Pending(remoteName))
      ensures |taken| <= count && (|taken| < count ==> Pending(remoteName) == [])
      ensures forall other: string :: other != remoteName ==> Pending(other) == old(Pending(other))
    {
      hide Queue, Sent, FirstNews, Answers, Seen, Rest, Taken, AlwaysLast, NoEmptyEntry, LastNewsIs;
      taken := [];
      for i := 0 to count
        invariant NoEmptyEntry(polls) && AlwaysLast(polls, remoteName) && |taken| == i
        invariant taken + Pending(remoteName) == old(Pending(remoteName))
        invariant forall other: string :: other != remoteName ==> Pending(other) == old(Pending(other))
      {
        RestIsSuffix(notifications, polls, remoteName);
        var r := GetNotification(remoteName);
        if r.None? { return; }
        taken := taken + [r.value.1];
      }
    }

    method TakeFrom(name: string) returns (r: Option<(string, Mail)>)
      requires Queue(notifications, name) != []
      modifies this`notifications
      ensures r.Some? && r.value.0 == name && Taken(old(notifications), name, r.value.1, notifications)
    {
      r := Some((name, notifications[name][0]));
      notifications := notifications[name := notifications[name][1..]];
    }

    method Collect(poll: Poll, before: string) returns (name: string)
      requires forall j :: 0 <= j < |poll| ==> poll[j].1 != []
      modifies this`notifications
      ensures notifications == Extended(old(notifications), poll)
      ensures name == if poll == [] then before else poll[|poll| - 1].0
      ensures if poll == [] then notifications == old(notifications) else Queue(notifications, name) != []
    {
      hide Extended;
      name := before;
      ExtendedNone(notifications);
      for i := 0 to |poll|
        invariant notifications == Extended(old(notifications), poll[..i])
        invariant name == if i == 0 then before else poll[i - 1].0
        invariant i > 0 ==> Queue(notifications, name) != []
      {
        name := poll[i].0;
        notifications := notifications[name := Queue(notifications, name) + poll[i].1];
        ExtendedNext(old(notifications), poll, i);
      }
      assert poll[..|poll|] == poll;
    }
  }

  /** With a second notifier the wrong agent's notification can be returned. */
  lemma SecondNotifierIsTaken()
    ensures Answers(map[], [[("next", [[1]]), ("other", [[2]])]], "next") == Some("other")
  {
    var polls: seq<Poll> := [[("next", [[1]]), ("other", [[2]])]];
    assert FirstNews(polls) == 0;
  }
}
