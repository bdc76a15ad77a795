/** The captcha mailbox between the credential fetch and the host application: one
    pending request, answered through a buffered channel that newer requests close. */
module CaptchaMailbox {
  import opened Basics

  // ---------------------------------------------------------------- the shared state

  /** A channel of capacity 1: what it holds and whether it is closed. */
  datatype Channel = Channel(buffer: Option<string>, closed: bool)

  /** Who published what while which channel was current: (channel, answer). */
  datatype Mailbox = Mailbox(
    pending: string,
    current: Option<nat>,
    channels: seq<Channel>,
    published: seq<(nat, string)>,
    panicked: bool)                 // closed a closed channel, or sent on one

  const Quiet := Mailbox("", None, [], [], false)

  function CloseChannel(m: Mailbox, c: nat): Mailbox {
    if c >= |m.channels| || m.channels[c].closed then m.(panicked := true)
    else m.(channels := m.channels[c := m.channels[c].(closed := true)])
  }

  /** The critical section that opens a request: the previous one, if pending, is
      discarded by closing its channel. */
  function Open(m: Mailbox, url: string): Mailbox {
    var a := if m.current.Some? then CloseChannel(m, m.current.value) else m;
    a.(pending := url, current := Some(|a.channels|), channels := a.channels + [Channel(None, false)])
  }

  /** The deferred critical section that ends request `c`. */
  function Finish(m: Mailbox, c: nat): Mailbox {
    if m.current == Some(c) then m.(pending := "", current := None) else m
  }

  /** PublishCaptchaAnswer. */
  function Publish(m: Mailbox, answer: string): Mailbox {
    if m.current.None? then m
    else
      var c := m.current.value;
      if c >= |m.channels| || m.channels[c].closed then m.(panicked := true)
      else if m.channels[c].buffer.Some? then m
      else m.(channels := m.channels[c := Channel(Some(answer), false)], published := m.published + [(c, answer)])
  }

  class CaptchaHost {
    var captchaPending: string
    var captchaAnswerCh: Option<nat>
    var channels: seq<Channel>
    ghost var published: seq<(nat, string)>
    ghost var panicked: bool

    ghost function Now(): Mailbox
      reads this
    {
      Mailbox(captchaPending, captchaAnswerCh, channels, published, panicked)
    }

    constructor ()
      ensures Now() == Quiet
    {
      captchaPending, captchaAnswerCh, channels := "", None, [];
      published, panicked := [], false;
    }

    method OpenRequest(redirectUri: string) returns (ch: nat)
      modifies this
      ensures Now() == Open(old(Now()), redirectUri) && ch == |old(channels)|
    {
      ch := |channels|;
      if captchaAnswerCh.Some? {
        var c := captchaAnswerCh.value;
        if c >= |channels| || channels[c].closed {
          panicked := true;
        } else {
          channels := channels[c := channels[c].(closed := true)];
        }
      }
      captchaPending := redirectUri;
      captchaAnswerCh := Some(ch);
      channels := channels + [Channel(None, false)];
    }

    method FinishRequest(ch: nat)
      modifies this
      ensures Now() == Finish(old(Now()), ch)
    {
      if captchaAnswerCh == Some(ch) {
        captchaAnswerCh := None;
        captchaPending := "";
      }
    }

    method PublishCaptchaAnswer(answer: string)
      modifies this
      ensures Now() == Publish(old(Now()), answer)
    {
      if captchaAnswerCh.None? {
        return;
      }
      var c := captchaAnswerCh.value;
      if c >= |channels| || channels[c].closed {
        panicked := true;
        return;
      }
      if channels[c].buffer.None? {
        channels := channels[c := Channel(Some(answer), false)];
        published := published + [(c, answer)];
      }
    }

    method PendingCaptchaURL() returns (url: string)
      ensures url == Now().pending
    {
      url := captchaPending;
    }
  }

  // ---------------------------------------------------------------- all interleavings

  /** A goroutine in RequestCaptchaCtx: about to open, in the final select, past it
      with the answer it will return, or done. */
  datatype Requester =
    | Calling(url: string)
    | Selecting(url: string, ch: nat)
    | Ending(url: string, ch: nat, answer: Option<string>)
    | Returned(ch: nat, answer: Option<string>)

  datatype System = System(mail: Mailbox, requesters: seq<Requester>)

  /** `Receive` is the channel case of the select (a buffered answer, or the zero
      value of a closed channel); `GiveUp` is the context or timeout case. */
  datatype Action =
    | Call(url: string)
    | Opens(i: nat)
    | Receive(i: nat)
    | GiveUp(i: nat)
    | Cleanup(i: nat)
    | HostPublishes(answer: string)

  function Step(s: System, a: Action): Option<System> {
    match a
    case Call(url) => Some(s.(requesters := s.requesters + [Calling(url)]))
    case Opens(i) =>
      if i < |s.requesters| && s.requesters[i].Calling? then
        Some(System(Open(s.mail, s.requesters[i].url),
                    s.requesters[i := Selecting(s.requesters[i].url, |s.mail.channels|)]))
      else None
    case Receive(i) =>
      if i < |s.requesters| && s.requesters[i].Selecting? && s.requesters[i].ch < |s.mail.channels| then
        var r, c := s.requesters[i], s.mail.channels[s.requesters[i].ch];
        if c.buffer.Some? then
          Some(System(s.mail.(channels := s.mail.channels[r.ch := c.(buffer := None)]),
                      s.requesters[i := Ending(r.url, r.ch, c.buffer)]))
        else if c.closed then Some(s.(requesters := s.requesters[i := Ending(r.url, r.ch, None)]))
        else None
      else None
    case GiveUp(i) =>
      if i < |s.requesters| && s.requesters[i].Selecting? then
        Some(s.(requesters := s.requesters[i := Ending(s.requesters[i].url, s.requesters[i].ch, None)]))
      else None
    case Cleanup(i) =>
      if i < |s.requesters| && s.requesters[i].Ending? then
        Some(System(Finish(s.mail, s.requesters[i].ch),
                    s.requesters[i := Returned(s.requesters[i].ch, s.requesters[i].answer)]))
      else None
    case HostPublishes(answer) => Some(s.(mail := Publish(s.mail, answer)))
  }

  const Start := System(Quiet, [])

  // ---------------------------------------------------------------- the invariant

  predicate Opened(r: Requester) {
    !r.Calling?
  }

  predicate Unfinished(r: Requester) {
    r.Selecting? || r.Ending?
  }

  ghost predicate ChannelInv(m: Mailbox) {
    && !m.panicked
    && (m.current.Some? ==> m.current.value + 1 == |m.channels| && !m.channels[m.current.value].closed)
    && (m.current.None? ==> m.pending == "")
    && (forall c :: 0 <= c < |m.channels| && m.channels[c].buffer.Some? ==>
          (c, m.channels[c].buffer.value) in m.published)
  }

  /** What a request returns was published while its channel was current. */
  predicate AnswerIsPublished(r: Requester, m: Mailbox) {
    (r.Ending? || r.Returned?) && r.answer.Some? ==> (r.ch, r.answer.value) in m.published
  }

  /** Each request has its own channel, closed once it is superseded; the newest one's
      is current and its URL pending. */
  ghost predicate OwnersInv(s: System) {
    && (forall i, j :: 0 <= i < j < |s.requesters| && Opened(s.requesters[i]) && Opened(s.requesters[j]) ==>
          s.requesters[i].ch != s.requesters[j].ch)
    && (forall i :: 0 <= i < |s.requesters| && Unfinished(s.requesters[i]) && s.requesters[i].ch < |s.mail.channels|
          ==> s.mail.current == Some(s.requesters[i].ch) || s.mail.channels[s.requesters[i].ch].closed)
    && (forall i :: 0 <= i < |s.requesters| && Opened(s.requesters[i]) ==> s.requesters[i].ch < |s.mail.channels|)
    && (forall i :: 0 <= i < |s.requesters| && Unfinished(s.requesters[i])
                    && s.requesters[i].ch + 1 == |s.mail.channels| ==>
          s.mail.current == Some(s.requesters[i].ch) && s.mail.pending == s.requesters[i].url)
    && (forall i :: 0 <= i < |s.requesters| ==> AnswerIsPublished(s.requesters[i], s.mail))
  }

  /** The current channel belongs to a request that is not finished. */
  ghost predicate CurrentInv(s: System) {
    s.mail.current.Some? ==> exists i ::
      0 <= i < |s.requesters| && Unfinished(s.requesters[i]) && s.requesters[i].ch == s.mail.current.value
  }

  ghost predicate RequestInv(s: System) {
    OwnersInv(s) && CurrentInv(s)
  }

  ghost predicate Inv(s: System) {
    ChannelInv(s.mail) && RequestInv(s)
  }

  // ---------------------------------------------------------------- preservation

  lemma OpensKeepsInv(s: System, i: nat)
    requires Inv(s) && Step(s, Opens(i)).Some?
    ensures Inv(Step(s, Opens(i)).value)
  {
    var t := Step(s, Opens(i)).value;
    assert Unfinished(t.requesters[i]);
  }

  /** A mailbox that keeps its channels' states, its current one and what it
      published serves the same requests. */
  ghost predicate Serves(m: Mailbox, n: Mailbox) {
    && n.current == m.current && n.pending == m.pending && |n.channels| == |m.channels|
    && (forall c :: 0 <= c < |m.channels| ==> n.channels[c].closed == m.channels[c].closed)
    && (forall p :: p in m.published ==> p in n.published)
  }

  lemma ServesKeepsRequests(s: System, n: Mailbox)
    requires RequestInv(s) && Serves(s.mail, n)
    ensures RequestInv(s.(mail := n))
  {
    if s.mail.current.Some? {
      var j :| 0 <= j < |s.requesters| && Unfinished(s.requesters[j]) && s.requesters[j].ch == s.mail.current.value;
    }
  }

  lemma EndingKeepsRequests(s: System, i: nat, answer: Option<string>)
    requires RequestInv(s) && i < |s.requesters| && s.requesters[i].Selecting?
    requires answer.Some? ==> (s.requesters[i].ch, answer.value) in s.mail.published
    ensures RequestInv(s.(requesters := s.requesters[i := Ending(s.requesters[i].url, s.requesters[i].ch, answer)]))
  {
    var t := s.requesters[i := Ending(s.requesters[i].url, s.requesters[i].ch, answer)];
    if s.mail.current.Some? {
      var j :| 0 <= j < |s.requesters| && Unfinished(s.requesters[j]) && s.requesters[j].ch == s.mail.current.value;
      assert Unfinished(t[j]);
    }
  }

  lemma TakeKeepsMail(m: Mailbox, c: nat)
    requires ChannelInv(m) && c < |m.channels|
    ensures var n := m.(channels := m.channels[c := m.channels[c].(buffer := None)]); ChannelInv(n) && Serves(m, n)
  {
  }

  lemma ReceiveKeepsInv(s: System, i: nat)
    requires Inv(s) && Step(s, Receive(i)).Some?
    ensures Inv(Step(s, Receive(i)).value)
  {
    var r := s.requesters[i];
    var c := s.mail.channels[r.ch];
    if c.buffer.Some? {
      var n := s.mail.(channels := s.mail.channels[r.ch := c.(buffer := None)]);
      TakeKeepsMail(s.mail, r.ch);
      ServesKeepsRequests(s, n);
      EndingKeepsRequests(s.(mail := n), i, c.buffer);
    } else {
      EndingKeepsRequests(s, i, None);
    }
  }

  lemma CleanupKeepsInv(s: System, i: nat)
    requires Inv(s) && Step(s, Cleanup(i)).Some?
    ensures Inv(Step(s, Cleanup(i)).value)
  {
    CleanupKeepsRequests(s, i);
  }

  lemma CleanupKeepsRequests(s: System, i: nat)
    requires RequestInv(s) && Step(s, Cleanup(i)).Some?
    ensures RequestInv(Step(s, Cleanup(i)).value)
  {
    if s.mail.current == Some(s.requesters[i].ch) {
      CurrentEnds(s, i);
    } else {
      OtherEnds(s, i);
    }
  }

  lemma CurrentEnds(s: System, i: nat)
    requires RequestInv(s) && i < |s.requesters| && s.requesters[i].Ending?
    requires s.mail.current == Some(s.requesters[i].ch)
    ensures RequestInv(System(s.mail.(pending := "", current := None),
                              s.requesters[i := Returned(s.requesters[i].ch, s.requesters[i].answer)]))
  {
  }

  lemma OtherEnds(s: System, i: nat)
    requires RequestInv(s) && i < |s.requesters| && s.requesters[i].Ending?
    requires s.mail.current != Some(s.requesters[i].ch)
    ensures RequestInv(s.(requesters := s.requesters[i := Returned(s.requesters[i].ch, s.requesters[i].answer)]))
  {
    OtherEndsOwners(s, i);
    var t := s.requesters[i := Returned(s.requesters[i].ch, s.requesters[i].answer)];
    if s.mail.current.Some? {
      var j :| 0 <= j < |s.requesters| && Unfinished(s.requesters[j]) && s.requesters[j].ch == s.mail.current.value;
      assert Unfinished(t[j]);
    }
  }

  lemma OtherEndsOwners(s: System, i: nat)
    requires OwnersInv(s) && i < |s.requesters| && s.requesters[i].Ending?
    ensures OwnersInv(s.(requesters := s.requesters[i := Returned(s.requesters[i].ch, s.requesters[i].answer)]))
  {
    assert AnswerIsPublished(s.requesters[i], s.mail);
  }

  lemma PublishKeepsMail(m: Mailbox, answer: string)
    requires ChannelInv(m)
    ensures ChannelInv(Publish(m, answer)) && Serves(m, Publish(m, answer))
  {
    var n := Publish(m, answer);
    if n.published != m.published {
      assert n.published[|m.published|] == (m.current.value, answer);
    }
  }

  lemma CallKeepsRequests(s: System, url: string)
    requires RequestInv(s)
    ensures RequestInv(s.(requesters := s.requesters + [Calling(url)]))
  {
    CallKeepsOwners(s, url);
    var t := s.requesters + [Calling(url)];
    if s.mail.current.Some? {
      var j :| 0 <= j < |s.requesters| && Unfinished(s.requesters[j]) && s.requesters[j].ch == s.mail.current.value;
      assert Unfinished(t[j]);
    }
  }

  lemma CallKeepsOwners(s: System, url: string)
    requires OwnersInv(s)
    ensures OwnersInv(s.(requesters := s.requesters + [Calling(url)]))
  {
  }

  lemma StepKeepsInv(s: System, a: Action)
    requires Inv(s) && Step(s, a).Some?
    ensures Inv(Step(s, a).value)
  {
    match a
    case Opens(i) => OpensKeepsInv(s, i);
    case Receive(i) => ReceiveKeepsInv(s, i);
    case GiveUp(i) => EndingKeepsRequests(s, i, None);
    case Cleanup(i) => CleanupKeepsInv(s, i);
    case Call(url) => CallKeepsRequests(s, url);
    case HostPublishes(answer) =>
      PublishKeepsMail(s.mail, answer);
      ServesKeepsRequests(s, Publish(s.mail, answer));
  }

  lemma RunKeepsInv(schedule: seq<Action>, s: System)
    requires Run(Step, Start, schedule) == Some(s)
    ensures Inv(s)
  {
    forall t, a | Inv(t) && Step(t, a).Some? ensures Inv(Step(t, a).value) {
      StepKeepsInv(t, a);
    }
    RunKeeps(Step, t => Inv(t), Start, schedule);
  }

  // ---------------------------------------------------------------- results

  /** In every run no channel is closed twice and nothing is sent on a closed one;
      the channel an answer would go to is open. */
  lemma NoPanic(schedule: seq<Action>, s: System)
    requires Run(Step, Start, schedule) == Some(s)
    ensures !s.mail.panicked
    ensures s.mail.current.Some? ==>
      s.mail.current.value < |s.mail.channels| && !s.mail.channels[s.mail.current.value].closed
  {
    RunKeepsInv(schedule, s);
  }

  /** A request returns only an answer that was published while its own channel was
      the current one, and never one published to another request. */
  lemma AnswersBelong(schedule: seq<Action>, s: System, i: nat)
    requires Run(Step, Start, schedule) == Some(s) && i < |s.requesters|
    requires s.requesters[i].Returned? && s.requesters[i].answer.Some?
    ensures (s.requesters[i].ch, s.requesters[i].answer.value) in s.mail.published
    ensures forall j :: 0 <= j < |s.requesters| && Opened(s.requesters[j])
                        && s.requesters[j].ch == s.requesters[i].ch ==>
      j == i
  {
    RunKeepsInv(schedule, s);
    assert AnswerIsPublished(s.requesters[i], s.mail);
  }

  /** Each publication records the channel that was current when it happened. */
  lemma PublishedWhileCurrent(m: Mailbox, answer: string)
    ensures Publish(m, answer).published == m.published
      || (m.current.Some? && Publish(m, answer).published == m.published + [(m.current.value, answer)])
  {
  }

  /** An answer published while request `i` is the current one and waiting reaches
      it: its channel case is enabled, and yields this answer unless an earlier one
      is still buffered, which then comes instead. */
  lemma PublicationIsReceived(schedule: seq<Action>, s: System, i: nat, answer: string)
    requires Run(Step, Start, schedule) == Some(s) && i < |s.requesters|
    requires s.requesters[i].Selecting? && s.mail.current == Some(s.requesters[i].ch)
    ensures s.requesters[i].ch < |s.mail.channels|
    ensures Step(s, HostPublishes(answer)).Some?
    ensures var t := Step(s, HostPublishes(answer)).value;
      && Step(t, Receive(i)).Some?
      && Step(t, Receive(i)).value.requesters[i].Ending?
      && Step(t, Receive(i)).value.requesters[i].answer
         == if s.mail.channels[s.requesters[i].ch].buffer.Some? then s.mail.channels[s.requesters[i].ch].buffer
            else Some(answer)
  {
    RunKeepsInv(schedule, s);
  }

  /** The pending URL is that of the newest request exactly while that request is
      unfinished, and empty otherwise. */
  lemma PendingIsNewest(schedule: seq<Action>, s: System, i: nat)
    requires Run(Step, Start, schedule) == Some(s) && i < |s.requesters|
    requires Opened(s.requesters[i]) && s.requesters[i].ch + 1 == |s.mail.channels|
    ensures Unfinished(s.requesters[i]) <==> s.mail.current == Some(s.requesters[i].ch)
    ensures Unfinished(s.requesters[i]) ==> s.mail.pending == s.requesters[i].url
    ensures !Unfinished(s.requesters[i]) ==> s.mail.pending == "" && s.mail.current == None
  {
    RunKeepsInv(schedule, s);
  }

  /** A request whose channel is no longer current can always leave its select: the
      newer request closed the channel. */
  lemma SupersededCanLeave(schedule: seq<Action>, s: System, i: nat)
    requires Run(Step, Start, schedule) == Some(s) && i < |s.requesters|
    requires s.requesters[i].Selecting? && s.mail.current != Some(s.requesters[i].ch)
    ensures Step(s, Receive(i)).Some?
  {
    RunKeepsInv(schedule, s);
  }
}
