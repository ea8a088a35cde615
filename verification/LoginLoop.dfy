/** Waiting for a browser login: the messages of the official client, the queue of completion
    events that arrive early, and the loop that receives them with the browser in view. */
module LoginLoop {
  import opened Basics
  import opened LoginBrowser

  datatype Failure = Cancelled | Timeout | Service | BrowserClosed | Refused(message: string)

  datatype Message =
    | Reply(id: nat, outcome: Result<string, Failure>)
    | Completed(loginId: Option<string>, success: bool, message: string)
    | Other

  const MAX_QUEUE := 16

  // ----- The verdict a login should get -----

  function Verdict(m: Message): Result<(), Failure>
    requires m.Completed?
  {
    if m.success then Ok(()) else Err(Refused(m.message))
  }

  predicate Concludes(m: Message, loginId: string) {
    m.Completed? && m.loginId == Some(loginId)
  }

  /** What the first completion of the login among the messages says. */
  function FirstVerdict(messages: seq<Message>, loginId: string): Option<Result<(), Failure>> {
    if messages == [] then None
    else if Concludes(messages[0], loginId) then Some(Verdict(messages[0]))
    else FirstVerdict(messages[1..], loginId)
  }

  /** Without a completion there is no verdict; otherwise it is that of one message, before
      which no message concludes the login: success, or its message of refusal. */
  lemma {:induction false} FirstVerdictMeaning(messages: seq<Message>, loginId: string)
    ensures FirstVerdict(messages, loginId).None? <==>
              forall m | m in messages :: !(m.Completed? && m.loginId == Some(loginId))
    ensures forall k | 0 <= k < |messages| && Concludes(messages[k], loginId)
                       && (forall i | 0 <= i < k :: !Concludes(messages[i], loginId)) ::
              FirstVerdict(messages, loginId) ==
                Some(if messages[k].success then Ok(()) else Err(Refused(messages[k].message)))
    decreases |messages|
  {
    if messages != [] {
      var rest := messages[1..];
      FirstVerdictMeaning(rest, loginId);
      assert messages == [messages[0]] + rest;
      forall k | 0 < k < |messages| && Concludes(messages[k], loginId)
                 && forall i | 0 <= i < k :: !Concludes(messages[i], loginId)
        ensures FirstVerdict(messages, loginId) ==
                  Some(if messages[k].success then Ok(()) else Err(Refused(messages[k].message)))
      {
        assert rest[k - 1] == messages[k] && !Concludes(messages[0], loginId);
        forall i | 0 <= i < k - 1
          ensures !Concludes(rest[i], loginId)
        {
          assert rest[i] == messages[i + 1];
        }
      }
    }
  }

  /** The first part decides if it can. */
  lemma {:induction false} VerdictOfParts(first: seq<Message>, second: seq<Message>, loginId: string)
    ensures FirstVerdict(first + second, loginId) == FirstVerdict(first, loginId).Or(FirstVerdict(second, loginId))
    decreases |first|
  {
    if first == [] {
      assert first + second == second;
    } else {
      assert (first + second)[1..] == first[1..] + second;
      VerdictOfParts(first[1..], second, loginId);
    }
  }

  // ----- What a session waits through -----

  /** A moment at which the session looks around: what has arrived since the last one, and
      whether the client hung up, the user cancelled, or the deadline of the wait has passed. */
  datatype Moment = Moment(arrived: seq<Message>, hungUp: bool, cancelled: bool, timeUp: bool, now: nat, sight: Sight)

  function Arriving(coming: seq<Moment>): seq<Message> {
    if coming == [] then [] else coming[0].arrived + Arriving(coming[1..])
  }

  /** What the session holds, what is yet to come, and how the browser looked so far. */
  datatype Scene = Scene(pending: seq<Message>, inbox: seq<Message>, coming: seq<Moment>, looks: seq<Look>) {
    function Unread(): seq<Message> {
      pending + inbox + Arriving(coming)
    }
  }

  /** The three moments of one turn of the receive loop. */
  datatype Phase = Polling | Watching | Waiting {
    function Next(): Phase {
      match this
      case Polling => Watching
      case Watching => Waiting
      case Waiting => Polling
    }
  }

  /** What a moment of the receive loop comes to, unless the loop goes on: a cancellation beats
      a queued message, and a queued message beats a hang-up or a closed browser. */
  function Outcome(phase: Phase, queue: seq<Message>, m: Moment, closed: bool): Option<Result<Message, Failure>> {
    match phase
    case Polling =>
      if m.cancelled then Some(Err(Cancelled))
      else if queue != [] then Some(Ok(queue[0]))
      else if m.hungUp then Some(Err(Service))
      else None
    case Watching =>
      if !closed then None
      else if m.cancelled then Some(Err(Cancelled))
      else if queue != [] then Some(Ok(queue[0]))
      else Some(Err(BrowserClosed))
    case Waiting =>
      if m.timeUp then Some(Err(Timeout))
      else if queue != [] then Some(Ok(queue[0]))
      else if m.hungUp then Some(Err(Service))
      else None
  }

  /** The looks after this moment's; `watch` is when the browser was started, if there is one. */
  function LooksAfter(looks: seq<Look>, watch: Option<nat>, m: Moment): seq<Look> {
    if watch.Some? && DueLook(looks, watch.value) <= m.now then looks + [Look(m.now, m.sight)] else looks
  }

  predicate FoundClosed(looks: seq<Look>, watch: Option<nat>, m: Moment) {
    && watch.Some? && DueLook(looks, watch.value) <= m.now
    && ClosedLongEnough(looks + [Look(m.now, m.sight)], watch.value, m.now)
  }

  /** The scene once the next moment is there. */
  function Meet(s: Scene, watch: Option<nat>, phase: Phase): Scene
    requires s.coming != []
  {
    s.(inbox := s.inbox + s.coming[0].arrived, coming := s.coming[1..],
       looks := if phase.Watching? then LooksAfter(s.looks, watch, s.coming[0]) else s.looks)
  }

  function OutcomeOf(s: Scene, watch: Option<nat>, phase: Phase): Option<Result<Message, Failure>>
    requires s.coming != []
  {
    Outcome(phase, s.inbox + s.coming[0].arrived, s.coming[0], FoundClosed(s.looks, watch, s.coming[0]))
  }

  /** The receive loop from one of its moments on: the outcome of the first moment that has
      one, and nothing where the history ends before. */
  function Listen(s: Scene, watch: Option<nat>, phase: Phase): (r: (Scene, Option<Result<Message, Failure>>))
    ensures r.0.pending == s.pending && |r.0.coming| <= |s.coming|
    ensures watch.None? ==> r.0.looks == s.looks
    ensures r.1.Some? ==> |r.0.coming| < |s.coming|
    decreases |s.coming|
  {
    if s.coming == [] then (s, None)
    else
      var next := Meet(s, watch, phase);
      match OutcomeOf(s, watch, phase)
      case None => Listen(next, watch, phase.Next())
      case Some(Ok(m)) => (next.(inbox := next.inbox[1..]), Some(Ok(m)))
      case Some(Err(failure)) => (next, Some(Err(failure)))
  }

  /** One moment of the loop. */
  lemma EndsOrGoesOn(s: Scene, watch: Option<nat>, phase: Phase)
    requires s.coming != []
    ensures var next := Meet(s, watch, phase); var outcome := OutcomeOf(s, watch, phase);
            Listen(s, watch, phase) ==
              if outcome.None? then Listen(next, watch, phase.Next())
              else if outcome.value.Ok? then (next.(inbox := next.inbox[1..]), outcome)
              else (next, outcome)
  {
  }

  function Taken(r: Option<Result<Message, Failure>>): seq<Message> {
    if r.Some? && r.value.Ok? then [r.value.value] else []
  }

  /** `later` is what is left of `earlier`. */
  predicate LeftOf(later: seq<Moment>, earlier: seq<Moment>) {
    |later| <= |earlier| && later == earlier[|earlier| - |later|..]
  }

  lemma LeftTwice(a: seq<Moment>, b: seq<Moment>, c: seq<Moment>)
    requires LeftOf(b, a) && LeftOf(c, b)
    ensures LeftOf(c, a) && (|c| < |b| ==> LastOf(a, c) == LastOf(b, c))
  {
  }

  /** The moment at which a wait ended, in a history that went on to `left`. */
  function LastOf(coming: seq<Moment>, left: seq<Moment>): Moment
    requires |left| < |coming|
  {
    coming[|coming| - |left| - 1]
  }

  lemma Regrouped(a: seq<Message>, b: seq<Message>, c: seq<Message>)
    ensures (a + b) + c == a + (b + c)
  {
  }

  lemma HeadFirst(queue: seq<Message>, rest: seq<Message>)
    requires queue != []
    ensures [queue[0]] + (queue[1..] + rest) == queue + rest
  {
  }

  /** Listening takes at most the first message, and loses none. */
  lemma {:induction false} ListenLosesNothing(s: Scene, watch: Option<nat>, phase: Phase)
    ensures var (s', r) := Listen(s, watch, phase);
            Taken(r) + (s'.inbox + Arriving(s'.coming)) == s.inbox + Arriving(s.coming)
    decreases |s.coming|
  {
    if s.coming != [] {
      var next := Meet(s, watch, phase);
      var rest := Arriving(next.coming);
      Regrouped(s.inbox, s.coming[0].arrived, rest);
      if OutcomeOf(s, watch, phase).None? {
        ListenLosesNothing(next, watch, phase.Next());
      } else if next.inbox != [] {
        HeadFirst(next.inbox, rest);
      }
    }
  }

  lemma {:induction false} ListenLeaves(s: Scene, watch: Option<nat>, phase: Phase)
    ensures LeftOf(Listen(s, watch, phase).0.coming, s.coming)
    decreases |s.coming|
  {
    if s.coming != [] {
      var next := Meet(s, watch, phase);
      assert LeftOf(next.coming, s.coming);
      if OutcomeOf(s, watch, phase).None? {
        var left := Listen(next, watch, phase.Next()).0.coming;
        ListenLeaves(next, watch, phase.Next());
        LeftTwice(s.coming, next.coming, left);
        EndsOrGoesOn(s, watch, phase);
      }
    }
  }

  /** What a failed wait proves of its last moment. */
  predicate Justified(failure: Failure, last: Moment, after: Scene, watch: Option<nat>) {
    match failure
    case Cancelled => last.cancelled
    case Timeout => last.timeUp
    case Service => last.hungUp && after.inbox == []
    case BrowserClosed =>
      && !last.cancelled && after.inbox == [] && watch.Some?
      && after.looks != [] && after.looks[|after.looks| - 1] == Look(last.now, last.sight)
      && ClosedLongEnough(after.looks, watch.value, last.now)
    case Refused(_) => false
  }

  lemma LooksStayPaced(looks: seq<Look>, watch: Option<nat>, m: Moment)
    requires Paced(looks)
    ensures Paced(LooksAfter(looks, watch, m))
  {
  }

  lemma FailureIsJustified(s: Scene, watch: Option<nat>, phase: Phase, failure: Failure)
    requires s.coming != [] && OutcomeOf(s, watch, phase) == Some(Err(failure))
    ensures Justified(failure, s.coming[0], Meet(s, watch, phase), watch)
  {
  }

  lemma {:induction false} ListenStaysPaced(s: Scene, watch: Option<nat>, phase: Phase)
    requires Paced(s.looks)
    ensures Paced(Listen(s, watch, phase).0.looks)
    decreases |s.coming|
  {
    if s.coming != [] {
      LooksStayPaced(s.looks, watch, s.coming[0]);
      ListenStaysPaced(Meet(s, watch, phase), watch, phase.Next());
    }
  }

  lemma {:induction false} ListenIsJustified(s: Scene, watch: Option<nat>, phase: Phase)
    ensures var (s', r) := Listen(s, watch, phase);
            && (r.None? ==> s'.coming == [])
            && (r.Some? && r.value.Err? ==> Justified(r.value.error, LastOf(s.coming, s'.coming), s', watch))
    decreases |s.coming|
  {
    if s.coming != [] {
      var next := Meet(s, watch, phase);
      match OutcomeOf(s, watch, phase) {
        case None =>
          ListenIsJustified(next, watch, phase.Next());
          ListenLeaves(next, watch, phase.Next());
          var left := Listen(next, watch, phase.Next()).0.coming;
          LeftTwice(s.coming, next.coming, left);
        case Some(Ok(_)) =>
        case Some(Err(failure)) => FailureIsJustified(s, watch, phase, failure);
      }
    }
  }

  // ----- When the receive loop ends, and with what -----

  /** The loop ends at this moment with this result. A message is taken as soon as one is there,
      unless the user cancelled or, after the turn's wait, the deadline has passed. */
  predicate EndsWith(r: Result<Message, Failure>, phase: Phase, queue: seq<Message>, m: Moment, closed: bool) {
    match r
    case Ok(x) =>
      && queue != [] && x == queue[0]
      && (phase.Polling? ==> !m.cancelled) && (phase.Watching? ==> closed && !m.cancelled) && (phase.Waiting? ==> !m.timeUp)
    case Err(Cancelled) => m.cancelled && (phase.Polling? || (phase.Watching? && closed))
    case Err(Timeout) => m.timeUp && phase.Waiting?
    case Err(Service) =>
      && m.hungUp && queue == []
      && ((phase.Polling? && !m.cancelled) || (phase.Waiting? && !m.timeUp))
    case Err(BrowserClosed) => phase.Watching? && closed && !m.cancelled && queue == []
    case Err(Refused(_)) => false
  }

  /** The loop goes on after this moment: there is no message, nobody hung up or cancelled, the
      deadline has not passed, and the browser has not been closed for long, as far as the
      moment is one to notice. */
  predicate GoesOn(phase: Phase, queue: seq<Message>, m: Moment, closed: bool) {
    match phase
    case Polling => !m.cancelled && queue == [] && !m.hungUp
    case Watching => !closed
    case Waiting => !m.timeUp && queue == [] && !m.hungUp
  }

  lemma OutcomeExactlyWhen(phase: Phase, queue: seq<Message>, m: Moment, closed: bool)
    ensures Outcome(phase, queue, m, closed).None? <==> GoesOn(phase, queue, m, closed)
    ensures forall r :: Outcome(phase, queue, m, closed) == Some(r) <==> EndsWith(r, phase, queue, m, closed)
  {
  }

  /** What is unread at the moment number `i` of the loop, while nothing has been taken. */
  function QueueAt(s: Scene, i: nat): seq<Message>
    requires i < |s.coming|
  {
    s.inbox + Arriving(s.coming[..i + 1])
  }

  /** The turn of the moment number `i`, from `phase` on. */
  function PhaseAt(phase: Phase, i: nat): Phase
    decreases i
  {
    if i == 0 then phase else PhaseAt(phase.Next(), i - 1)
  }

  /** How the browser has looked before the moment number `i`. */
  function LooksAt(s: Scene, watch: Option<nat>, phase: Phase, i: nat): seq<Look>
    requires i <= |s.coming|
    decreases i
  {
    if i == 0 then s.looks else LooksAt(Meet(s, watch, phase), watch, phase.Next(), i - 1)
  }

  predicate GoesOnAt(s: Scene, watch: Option<nat>, phase: Phase, i: nat)
    requires i < |s.coming|
  {
    GoesOn(PhaseAt(phase, i), QueueAt(s, i), s.coming[i], FoundClosed(LooksAt(s, watch, phase, i), watch, s.coming[i]))
  }

  predicate EndsAt(s: Scene, watch: Option<nat>, phase: Phase, i: nat, r: Result<Message, Failure>)
    requires i < |s.coming|
  {
    EndsWith(r, PhaseAt(phase, i), QueueAt(s, i), s.coming[i], FoundClosed(LooksAt(s, watch, phase, i), watch, s.coming[i]))
  }

  /** One moment on, everything is one moment nearer. */
  lemma LaterMoments(s: Scene, watch: Option<nat>, phase: Phase, i: nat)
    requires 0 < i < |s.coming|
    ensures var next := Meet(s, watch, phase);
            && next.coming[i - 1] == s.coming[i] && QueueAt(next, i - 1) == QueueAt(s, i)
            && PhaseAt(phase.Next(), i - 1) == PhaseAt(phase, i)
            && LooksAt(next, watch, phase.Next(), i - 1) == LooksAt(s, watch, phase, i)
  {
    var next := Meet(s, watch, phase);
    assert s.coming[..i + 1][0] == s.coming[0] && s.coming[..i + 1][1..] == next.coming[..i];
    Regrouped(s.inbox, s.coming[0].arrived, Arriving(next.coming[..i]));
  }

  lemma FirstMoment(s: Scene, watch: Option<nat>, phase: Phase)
    requires s.coming != []
    ensures QueueAt(s, 0) == s.inbox + s.coming[0].arrived
    ensures OutcomeOf(s, watch, phase).None? <==> GoesOnAt(s, watch, phase, 0)
    ensures forall r :: OutcomeOf(s, watch, phase) == Some(r) <==> EndsAt(s, watch, phase, 0, r)
  {
    var one := s.coming[..1];
    assert one[0] == s.coming[0] && one[1..] == [] && Arriving(one) == one[0].arrived + [];
    assert QueueAt(s, 0) == s.inbox + Arriving(one);
    OutcomeExactlyWhen(phase, QueueAt(s, 0), s.coming[0], FoundClosed(s.looks, watch, s.coming[0]));
  }

  predicate GoesOnUntil(s: Scene, watch: Option<nat>, phase: Phase, k: nat)
    requires k <= |s.coming|
  {
    forall i | 0 <= i < k :: GoesOnAt(s, watch, phase, i)
  }

  /** The loop went on at every moment it met, up to the last of them if it ended there with a
      result, and through its whole history if it did not. */
  predicate EndsAtTheFirst(s: Scene, watch: Option<nat>, phase: Phase, left: nat, r: Option<Result<Message, Failure>>)
    requires left <= |s.coming|
  {
    var met := |s.coming| - left;
    if r.None? then left == 0 && GoesOnUntil(s, watch, phase, met)
    else 0 < met && GoesOnUntil(s, watch, phase, met - 1) && EndsAt(s, watch, phase, met - 1, r.value)
  }

  lemma LaterGoesOn(s: Scene, next: Scene, watch: Option<nat>, phase: Phase, j: nat)
    requires j + 1 < |s.coming| && next == Meet(s, watch, phase) && GoesOnAt(next, watch, phase.Next(), j)
    ensures GoesOnAt(s, watch, phase, j + 1)
  {
    LaterMoments(s, watch, phase, j + 1);
  }

  lemma LaterEnds(s: Scene, next: Scene, watch: Option<nat>, phase: Phase, j: nat, r: Result<Message, Failure>)
    requires j + 1 < |s.coming| && next == Meet(s, watch, phase) && EndsAt(next, watch, phase.Next(), j, r)
    ensures EndsAt(s, watch, phase, j + 1, r)
  {
    LaterMoments(s, watch, phase, j + 1);
  }

  lemma GoesOnLater(s: Scene, next: Scene, watch: Option<nat>, phase: Phase, k: nat)
    requires s.coming != [] && next == Meet(s, watch, phase) && GoesOnAt(s, watch, phase, 0)
    requires k <= |next.coming| && GoesOnUntil(next, watch, phase.Next(), k)
    ensures GoesOnUntil(s, watch, phase, k + 1)
  {
    forall i | 0 <= i < k + 1
      ensures GoesOnAt(s, watch, phase, i)
    {
      if i != 0 {
        LaterGoesOn(s, next, watch, phase, i - 1);
      }
    }
  }

  /** What the rest of the loop does it does one moment later. */
  lemma EndsOneLater(s: Scene, next: Scene, watch: Option<nat>, phase: Phase, left: nat, r: Result<Message, Failure>)
    requires s.coming != [] && next == Meet(s, watch, phase) && GoesOnAt(s, watch, phase, 0) && left < |s.coming|
    requires EndsAtTheFirst(next, watch, phase.Next(), left, Some(r))
    ensures EndsAtTheFirst(s, watch, phase, left, Some(r))
  {
    var k: nat := |next.coming| - left - 1;
    assert GoesOnUntil(next, watch, phase.Next(), k) && EndsAt(next, watch, phase.Next(), k, r);
    LaterEnds(s, next, watch, phase, k, r);
    GoesOnLater(s, next, watch, phase, k);
    assert |s.coming| - left - 1 == k + 1;
  }

  lemma NeverEndsLater(s: Scene, next: Scene, watch: Option<nat>, phase: Phase)
    requires s.coming != [] && next == Meet(s, watch, phase) && GoesOnAt(s, watch, phase, 0)
    requires EndsAtTheFirst(next, watch, phase.Next(), 0, None)
    ensures EndsAtTheFirst(s, watch, phase, 0, None)
  {
    GoesOnLater(s, next, watch, phase, |next.coming|);
  }

  /** The receive loop ends at the first moment at which it does not go on, with what that moment
      comes to; and it does not end before its history only if every moment lets it go on. */
  lemma {:induction false} ListenEndsAtTheFirst(s: Scene, watch: Option<nat>, phase: Phase)
    ensures var (s', r) := Listen(s, watch, phase); EndsAtTheFirst(s, watch, phase, |s'.coming|, r)
    decreases |s.coming|
  {
    if s.coming != [] {
      FirstMoment(s, watch, phase);
      EndsOrGoesOn(s, watch, phase);
      if OutcomeOf(s, watch, phase).None? {
        var next := Meet(s, watch, phase);
        ListenEndsAtTheFirst(next, watch, phase.Next());
        var (s', r) := Listen(next, watch, phase.Next());
        if r.Some? {
          EndsOneLater(s, next, watch, phase, |s'.coming|, r.value);
        } else {
          NeverEndsLater(s, next, watch, phase);
        }
      }
    }
  }

  // ----- Waiting for a login -----

  /** Waiting for the verdict on a login: early completions first, with a look at the cancel
      flag before each, and then the receive loop, message by message, whose first look at the
      flag stands for the one just before it. */
  function Await(s: Scene, watch: Option<nat>, loginId: string): (r: (Scene, Option<Result<(), Failure>>))
    ensures |r.0.coming| <= |s.coming|
    ensures r.1.Some? ==> |r.0.coming| < |s.coming|
    decreases |s.coming|
  {
    if s.pending == [] then
      var (s', r) := Listen(s, watch, Polling);
      match r
      case None => (s', None)
      case Some(Err(failure)) => (s', Some(Err(failure)))
      case Some(Ok(m)) => if Concludes(m, loginId) then (s', Some(Verdict(m))) else Await(s', watch, loginId)
    else if s.coming == [] then (s, None)
    else
      var next := Meet(s, None, Polling);
      if s.coming[0].cancelled then (next, Some(Err(Cancelled)))
      else
        var popped := next.(pending := s.pending[1..]);
        if Concludes(s.pending[0], loginId) then (popped, Some(Verdict(s.pending[0]))) else Await(popped, watch, loginId)
  }

  /** What the wait for a login means. Its verdict is that of the first matching completion in
      all that is unread or will arrive; and when it fails in any other way, or is not over, no
      completion of the login is among the messages read so far. */
  ghost predicate Awaited(s: Scene, watch: Option<nat>, loginId: string, s': Scene, r: Option<Result<(), Failure>>,
                          read: seq<Message>) {
    && s.Unread() == read + s'.Unread() && LeftOf(s'.coming, s.coming) && Paced(s'.looks)
    && (r.Some? ==> |s'.coming| < |s.coming|)
    && if r.None? then s'.coming == [] && FirstVerdict(read, loginId) == None
       else if r.value.Ok? || r.value.error.Refused? then
         FirstVerdict(read, loginId) == r && FirstVerdict(s.Unread(), loginId) == r
       else
         && FirstVerdict(read, loginId) == None
         && Justified(r.value.error, LastOf(s.coming, s'.coming), s', watch)
         && (!r.value.error.Cancelled? ==> s'.pending == [])
  }

  lemma UnreadAfter(s: Scene, s': Scene, front: seq<Message>)
    requires s.pending == [] && s'.pending == []
    requires front + (s'.inbox + Arriving(s'.coming)) == s.inbox + Arriving(s.coming)
    ensures s.Unread() == front + s'.Unread()
  {
    assert s.Unread() == s.inbox + Arriving(s.coming);
    assert s'.Unread() == s'.inbox + Arriving(s'.coming);
  }

  lemma HeardNothing(s: Scene, watch: Option<nat>, loginId: string)
    requires Paced(s.looks) && s.pending == []
    requires var heard := Listen(s, watch, Polling).1; heard.None? || heard.value.Err?
    ensures Awaited(s, watch, loginId, Await(s, watch, loginId).0, Await(s, watch, loginId).1, [])
  {
    var s' := Listen(s, watch, Polling).0;
    ListenLosesNothing(s, watch, Polling);
    ListenLeaves(s, watch, Polling);
    UnreadAfter(s, s', []);
    ListenIsJustified(s, watch, Polling);
    ListenStaysPaced(s, watch, Polling);
  }

  lemma HeardNext(s: Scene, watch: Option<nat>)
    requires Paced(s.looks) && s.pending == []
    ensures var (s', r) := Listen(s, watch, Polling);
            r.Some? && r.value.Ok? ==>
              s.Unread() == [r.value.value] + s'.Unread() && LeftOf(s'.coming, s.coming) && Paced(s'.looks)
  {
    var (s', r) := Listen(s, watch, Polling);
    ListenLosesNothing(s, watch, Polling);
    ListenLeaves(s, watch, Polling);
    UnreadAfter(s, s', Taken(r));
    ListenStaysPaced(s, watch, Polling);
  }

  /** An early completion and a look at the cancel flag. */
  lemma PoppedNext(s: Scene)
    requires s.pending != [] && s.coming != []
    ensures var next := Meet(s, None, Polling);
            && next.Unread() == s.Unread() == [s.pending[0]] + next.(pending := s.pending[1..]).Unread()
            && LeftOf(next.coming, s.coming)
  {
    var next := Meet(s, None, Polling);
    assert s.inbox + Arriving(s.coming) == next.inbox + Arriving(next.coming);
    assert s.Unread() == s.pending + (s.inbox + Arriving(s.coming));
    assert next.Unread() == s.pending + (next.inbox + Arriving(next.coming));
  }

  lemma OtherFirst(m: Message, read: seq<Message>, rest: seq<Message>, loginId: string)
    requires !Concludes(m, loginId)
    ensures [m] + (read + rest) == [m] + read + rest
    ensures FirstVerdict([m] + read, loginId) == FirstVerdict(read, loginId)
    ensures FirstVerdict([m] + (read + rest), loginId) == FirstVerdict(read + rest, loginId)
  {
    VerdictOfParts([m], read, loginId);
    VerdictOfParts([m], read + rest, loginId);
  }

  /** One message read, the wait is over or goes on. */
  lemma {:induction false} AwaitedNext(s: Scene, s1: Scene, watch: Option<nat>, loginId: string, m: Message)
    returns (read: seq<Message>)
    requires s.Unread() == [m] + s1.Unread() && Paced(s1.looks)
    requires LeftOf(s1.coming, s.coming) && |s1.coming| < |s.coming|
    ensures if Concludes(m, loginId) then Awaited(s, watch, loginId, s1, Some(Verdict(m)), read)
            else Awaited(s, watch, loginId, Await(s1, watch, loginId).0, Await(s1, watch, loginId).1, read)
    decreases |s1.coming|, 1
  {
    if Concludes(m, loginId) {
      VerdictOfParts([m], s1.Unread(), loginId);
      read := [m];
    } else {
      var (s', r) := Await(s1, watch, loginId);
      var more := AwaitMeaning(s1, watch, loginId);
      LeftTwice(s.coming, s1.coming, s'.coming);
      OtherFirst(m, more, s'.Unread(), loginId);
      read := [m] + more;
    }
  }

  lemma {:induction false} AwaitMeaning(s: Scene, watch: Option<nat>, loginId: string) returns (read: seq<Message>)
    requires Paced(s.looks)
    ensures Awaited(s, watch, loginId, Await(s, watch, loginId).0, Await(s, watch, loginId).1, read)
    decreases |s.coming|, 0
  {
    read := [];
    if s.pending == [] {
      var (heard, message) := Listen(s, watch, Polling);
      if message.Some? && message.value.Ok? {
        HeardNext(s, watch);
        read := AwaitedNext(s, heard, watch, loginId, message.value.value);
      } else {
        HeardNothing(s, watch, loginId);
      }
    } else if s.coming != [] {
      PoppedNext(s);
      if !s.coming[0].cancelled {
        var popped := Meet(s, None, Polling).(pending := s.pending[1..]);
        read := AwaitedNext(s, popped, watch, loginId, s.pending[0]);
      }
    }
  }

  // ----- What stops the wait -----

  /** The flag is set by the moment `k`, and a set flag is never taken back. */
  predicate CancelledFrom(coming: seq<Moment>, k: nat) {
    forall i | k <= i < |coming| :: coming[i].cancelled
  }

  /** How many moments at most a turn still takes to meet a set flag. */
  function Slack(phase: Phase): nat {
    match phase
    case Polling => 1
    case Watching => 3
    case Waiting => 2
  }

  lemma {:induction false} ListenHeedsCancellation(s: Scene, watch: Option<nat>, phase: Phase, k: nat)
    requires CancelledFrom(s.coming, k)
    ensures var (s', r) := Listen(s, watch, phase); var met := |s.coming| - |s'.coming|;
            && met <= k + (if k == 0 then Slack(phase) else 3)
            && (r.Some? && r.value.Ok? ==> met < k + (if k == 0 then Slack(phase) else 3))
            && (r.None? ==> met == |s.coming|)
    decreases |s.coming|
  {
    if s.coming != [] {
      EndsOrGoesOn(s, watch, phase);
      if OutcomeOf(s, watch, phase).None? {
        var next := Meet(s, watch, phase);
        forall i | (if k == 0 then 0 else k - 1) <= i < |next.coming|
          ensures next.coming[i].cancelled
        {
          assert next.coming[i] == s.coming[i + 1];
        }
        ListenHeedsCancellation(next, watch, phase.Next(), if k == 0 then 0 else k - 1);
      }
    }
  }

  /** Once the flag is set, the login is waited for at most three moments more, whatever
      arrives. */
  lemma {:induction false} CancellationIsHeeded(s: Scene, watch: Option<nat>, loginId: string, k: nat)
    requires CancelledFrom(s.coming, k)
    ensures var (s', r) := Await(s, watch, loginId); var met := |s.coming| - |s'.coming|;
            && met <= k + (if k == 0 then 1 else 3)
            && (r.None? ==> met == |s.coming|)
    decreases |s.coming|
  {
    if s.pending == [] {
      ListenHeedsCancellation(s, watch, Polling, k);
      ListenLeaves(s, watch, Polling);
      var (s', r) := Listen(s, watch, Polling);
      if r.Some? && r.value.Ok? && !Concludes(r.value.value, loginId) {
        var met := |s.coming| - |s'.coming|;
        var k' := if met <= k then k - met else 0;
        CancelledLater(s.coming, s'.coming, k, k');
        CancellationIsHeeded(s', watch, loginId, k');
      }
    } else if s.coming != [] && !s.coming[0].cancelled {
      var popped := Meet(s, None, Polling).(pending := s.pending[1..]);
      CancelledLater(s.coming, popped.coming, k, k - 1);
      if !Concludes(s.pending[0], loginId) {
        CancellationIsHeeded(popped, watch, loginId, k - 1);
      }
    }
  }

  lemma CancelledLater(coming: seq<Moment>, left: seq<Moment>, k: nat, k': nat)
    requires CancelledFrom(coming, k) && LeftOf(left, coming) && k <= k' + (|coming| - |left|)
    ensures CancelledFrom(left, k')
  {
    forall i | k' <= i < |left|
      ensures left[i].cancelled
    {
      assert left[i] == coming[i + (|coming| - |left|)];
    }
  }

  /** With nothing queued or arriving, nobody cancelling and the client still there, the look
      that finds the browser closed ends the wait as closed. */
  lemma ClosureIsReported(s: Scene, watch: Option<nat>, loginId: string)
    requires s.pending == [] && s.inbox == [] && 2 <= |s.coming|
    requires !s.coming[0].cancelled && !s.coming[0].hungUp && s.coming[0].arrived == []
    requires !s.coming[1].cancelled && s.coming[1].arrived == []
    requires FoundClosed(s.looks, watch, s.coming[1])
    ensures Await(s, watch, loginId).1 == Some(Err(BrowserClosed))
  {
    EndsOrGoesOn(s, watch, Polling);
    EndsOrGoesOn(Meet(s, watch, Polling), watch, Watching);
  }

  /** What arrived until the history was down to `left`. */
  function ArrivedBy(coming: seq<Moment>, left: seq<Moment>): seq<Message>
    requires LeftOf(left, coming)
  {
    Arriving(coming[..|coming| - |left|])
  }

  /** All that had come when the history was down to `left`. */
  function Come(s: Scene, left: seq<Moment>): seq<Message>
    requires LeftOf(left, s.coming)
  {
    s.pending + s.inbox + ArrivedBy(s.coming, left)
  }

  lemma {:induction false} ArrivingParts(first: seq<Moment>, second: seq<Moment>)
    ensures Arriving(first + second) == Arriving(first) + Arriving(second)
    decreases |first|
  {
    if first == [] {
      assert first + second == second;
    } else {
      assert (first + second)[1..] == first[1..] + second;
      ArrivingParts(first[1..], second);
    }
  }

  lemma ArrivingLeft(coming: seq<Moment>, left: seq<Moment>)
    requires LeftOf(left, coming)
    ensures Arriving(coming) == ArrivedBy(coming, left) + Arriving(left)
  {
    var n := |coming| - |left|;
    assert coming == coming[..n] + left;
    ArrivingParts(coming[..n], left);
  }

  /** A wait that ended with nothing unread has read all that had come. */
  lemma AllCome(s: Scene, s': Scene, read: seq<Message>)
    requires LeftOf(s'.coming, s.coming) && s'.pending == [] && s'.inbox == []
    requires s.Unread() == read + s'.Unread()
    ensures read == Come(s, s'.coming)
  {
    ArrivingLeft(s.coming, s'.coming);
    assert s'.Unread() == Arriving(s'.coming);
    assert s.Unread() == Come(s, s'.coming) + Arriving(s'.coming);
    SameFront(read, Come(s, s'.coming), Arriving(s'.coming));
  }

  lemma SameFront<T>(a: seq<T>, b: seq<T>, back: seq<T>)
    requires a + back == b + back
    ensures a == b
  {
    assert |a| == |b| && a == (a + back)[..|a|] && b == (b + back)[..|b|];
  }

  /** A login is reported as closed only if no completion of it has come by then, nobody
      cancelled at that moment, and every look at the browser in the last eight seconds or
      more counted as closed. */
  lemma BrowserClosedMeans(s: Scene, watch: Option<nat>, loginId: string)
    requires Paced(s.looks) && Await(s, watch, loginId).1 == Some(Err(BrowserClosed))
    ensures SilentlyClosed(s, watch, loginId, Await(s, watch, loginId).0)
  {
    var read := AwaitMeaning(s, watch, loginId);
    var (s', r) := Await(s, watch, loginId);
    NoVerdictInSilence(s, watch, loginId, s', read);
  }

  ghost predicate SilentlyClosed(s: Scene, watch: Option<nat>, loginId: string, s': Scene) {
    && LeftOf(s'.coming, s.coming) && |s'.coming| < |s.coming|
    && (forall m | m in Come(s, s'.coming) :: !Concludes(m, loginId))
    && var last := LastOf(s.coming, s'.coming);
       && !last.cancelled && watch.Some?
       && s'.looks != [] && s'.looks[|s'.looks| - 1] == Look(last.now, last.sight)
       && ClosedForGrace(s'.looks, watch.value, last.now)
  }

  lemma NoVerdictInSilence(s: Scene, watch: Option<nat>, loginId: string, s': Scene, read: seq<Message>)
    requires Awaited(s, watch, loginId, s', Some(Err(BrowserClosed)), read)
    ensures SilentlyClosed(s, watch, loginId, s')
  {
    AllCome(s, s', read);
    FirstVerdictMeaning(read, loginId);
    ClosedLongEnoughMeaning(s'.looks, watch.value, LastOf(s.coming, s'.coming).now);
  }

  // ----- The session -----

  function Completions(messages: seq<Message>): seq<Message> {
    if messages == [] then [] else (if messages[0].Completed? then [messages[0]] else []) + Completions(messages[1..])
  }

  /** Completions alone decide. */
  lemma {:induction false} CompletionsDecide(messages: seq<Message>, loginId: string)
    ensures FirstVerdict(Completions(messages), loginId) == FirstVerdict(messages, loginId)
    decreases |messages|
  {
    if messages != [] {
      CompletionsDecide(messages[1..], loginId);
      if messages[0].Completed? {
        var completions := [messages[0]] + Completions(messages[1..]);
        assert completions[1..] == Completions(messages[1..]);
      } else {
        assert [] + Completions(messages[1..]) == Completions(messages[1..]);
      }
    }
  }

  lemma {:induction false} CompletionsJoin(first: seq<Message>, second: seq<Message>)
    ensures Completions(first + second) == Completions(first) + Completions(second)
    decreases |first|
  {
    if first == [] {
      assert first + second == second;
    } else {
      assert (first + second)[1..] == first[1..] + second;
      CompletionsJoin(first[1..], second);
    }
  }

  // ----- Waiting for a reply -----

  predicate Answers(m: Message, id: nat) {
    m.Reply? && m.id == id
  }

  /** Waiting for the reply to one request: completions that come first are queued. */
  function Ask(s: Scene, id: nat): (r: (Scene, Option<Result<string, Failure>>))
    ensures r.0.looks == s.looks && (|s.pending| <= MAX_QUEUE ==> |r.0.pending| <= MAX_QUEUE)
    ensures |r.0.coming| <= |s.coming|
    ensures r.1.Some? ==> |r.0.coming| < |s.coming|
    decreases |s.coming|
  {
    var (s', r) := Listen(s, None, Polling);
    match r
    case None => (s', None)
    case Some(Err(failure)) => (s', Some(Err(failure)))
    case Some(Ok(m)) =>
      if Answers(m, id) then (s', Some(m.outcome))
      else if !m.Completed? then Ask(s', id)
      else if |s.pending| >= MAX_QUEUE then (s', Some(Err(Service)))
      else Ask(s'.(pending := s.pending + [m]), id)
  }

  /** No message but possibly the last one answers the request. */
  predicate UnansweredBefore(read: seq<Message>, id: nat) {
    forall i | 0 <= i < |read| - 1 :: !Answers(read[i], id)
  }

  /** The last message read is the reply to the request. */
  predicate AnsweredBy(read: seq<Message>, id: nat, outcome: Result<string, Failure>) {
    read != [] && read[|read| - 1] == Reply(id, outcome)
  }

  /** What the wait for a reply means. Nothing that came is lost: the early completions are
      queued in the order of their arrival. The answer is the first reply; and without one the
      wait is not over, was cut short, or met a seventeenth completion. */
  predicate Asked(s: Scene, id: nat, s': Scene, r: Option<Result<string, Failure>>, read: seq<Message>) {
    && read + (s'.inbox + Arriving(s'.coming)) == s.inbox + Arriving(s.coming)
    && LeftOf(s'.coming, s.coming) && (r.Some? ==> |s'.coming| < |s.coming|)
    && UnansweredBefore(read, id)
    && if r.Some? && AnsweredBy(read, id, r.value) then s'.pending == s.pending + Completions(read)
       else
         && (read != [] ==> !Answers(read[|read| - 1], id))
         && if r.None? then s'.coming == [] && s'.pending == s.pending + Completions(read)
            else
              && r.value.Err?
              && if s'.pending == s.pending + Completions(read) then
                   Justified(r.value.error, LastOf(s.coming, s'.coming), s', None)
                 else
                   && r.value.error == Service && |s'.pending| == 16
                   && |s.pending + Completions(read)| == 17
  }

  lemma QueuedBefore(queue: seq<Message>, m: Message, read: seq<Message>)
    ensures queue + (if m.Completed? then [m] else []) + Completions(read) == queue + Completions([m] + read)
  {
    assert ([m] + read)[1..] == read;
  }

  lemma AskedAfter(s: Scene, id: nat, m: Message, s1: Scene,
                   s': Scene, r: Option<Result<string, Failure>>, read: seq<Message>)
    requires s.inbox + Arriving(s.coming) == [m] + (s1.inbox + Arriving(s1.coming)) && !Answers(m, id)
    requires LeftOf(s1.coming, s.coming) && |s1.coming| < |s.coming|
    requires s1.pending == s.pending + if m.Completed? then [m] else []
    requires Asked(s1, id, s', r, read)
    ensures Asked(s, id, s', r, [m] + read)
  {
    LeftTwice(s.coming, s1.coming, s'.coming);
    Regrouped([m], read, s'.inbox + Arriving(s'.coming));
    QueuedBefore(s.pending, m, read);
  }

  lemma {:induction false} AskMeaning(s: Scene, id: nat) returns (read: seq<Message>)
    requires |s.pending| <= MAX_QUEUE
    ensures Asked(s, id, Ask(s, id).0, Ask(s, id).1, read)
    decreases |s.coming|
  {
    var (s', r) := Listen(s, None, Polling);
    ListenLosesNothing(s, None, Polling);
    ListenLeaves(s, None, Polling);
    ListenIsJustified(s, None, Polling);
    read := [];
    if r.Some? && r.value.Ok? {
      var m := r.value.value;
      if Answers(m, id) {
        read := [m];
      } else if !m.Completed? || |s.pending| < MAX_QUEUE {
        var s1 := if m.Completed? then s'.(pending := s.pending + [m]) else s';
        var more := AskMeaning(s1, id);
        AskedAfter(s, id, m, s1, Ask(s1, id).0, Ask(s1, id).1, more);
        read := [m] + more;
      } else {
        read := [m];
      }
    }
  }

  class RpcSession {
    var pending: seq<Message>
    var inbox: seq<Message>
    var coming: seq<Moment>

    constructor (coming: seq<Moment>)
      ensures this.coming == coming && inbox == [] && pending == []
    {
      this.coming, inbox, pending := coming, [], [];
    }

    ghost function SceneNow(looks: seq<Look>): Scene
      reads this
    {
      Scene(pending, inbox, coming, looks)
    }

    method LookAround() returns (m: Moment)
      requires coming != []
      modifies this`inbox, this`coming
      ensures m == old(coming)[0] && inbox == old(inbox) + m.arrived && coming == old(coming)[1..]
    {
      m := coming[0];
      inbox, coming := inbox + m.arrived, coming[1..];
    }

    /** A message if one is there, a failure if none will ever be. */
    method TryReceive(hungUp: bool) returns (r: Option<Result<Message, Failure>>)
      modifies this`inbox
      ensures old(inbox) != [] ==> r == Some(Ok(old(inbox)[0])) && inbox == old(inbox)[1..]
      ensures old(inbox) == [] ==> r == (if hungUp then Some(Err(Service)) else None) && inbox == []
    {
      if inbox != [] {
        r := Some(Ok(inbox[0]));
        inbox := inbox[1..];
      } else {
        r := if hungUp then Some(Err(Service)) else None;
      }
    }

    ghost function LooksOf(browser: AuthBrowserMonitor?): seq<Look>
      reads browser
    {
      if browser == null then [] else browser.looks
    }

    ghost function WatchOf(browser: AuthBrowserMonitor?): Option<nat> {
      if browser == null then None else Some(browser.started)
    }

    /** Look at the browser, if there is one. */
    method CheckBrowser(browser: AuthBrowserMonitor?, m: Moment) returns (closed: bool)
      requires browser != null ==> browser.Valid()
      modifies browser
      ensures browser != null ==> browser.Valid()
      ensures LooksOf(browser) == LooksAfter(old(LooksOf(browser)), WatchOf(browser), m)
      ensures closed == FoundClosed(old(LooksOf(browser)), WatchOf(browser), m)
    {
      closed := false;
      if browser != null {
        closed := browser.Check(m.now, m.sight);
      }
    }

    /** One turn of the receive loop; `over` if it is the last one. */
    method Turn(browser: AuthBrowserMonitor?) returns (over: bool, r: Option<Result<Message, Failure>>)
      requires browser != null ==> browser.Valid()
      modifies this`inbox, this`coming, browser
      ensures browser != null ==> browser.Valid()
      ensures !over ==> |coming| < |old(coming)|
      ensures Listen(old(SceneNow(LooksOf(browser))), WatchOf(browser), Polling) ==
                if over then (SceneNow(LooksOf(browser)), r)
                else Listen(SceneNow(LooksOf(browser)), WatchOf(browser), Polling)
    {
      ghost var watch, looks := WatchOf(browser), LooksOf(browser);
      ghost var s := Scene(pending, inbox, coming, looks);
      if coming == [] {
        return true, None;
      }
      var m := LookAround();
      EndsOrGoesOn(s, watch, Polling);
      s := Meet(s, watch, Polling);
      if m.cancelled {
        return true, Some(Err(Cancelled));
      }
      r := TryReceive(m.hungUp);
      if r.Some? {
        return true, r;
      }
      if coming == [] {
        return true, None;
      }
      m := LookAround();
      var closed := CheckBrowser(browser, m);
      EndsOrGoesOn(s, watch, Watching);
      s := Meet(s, watch, Watching);
      if closed {
        if m.cancelled {
          return true, Some(Err(Cancelled));
        }
        r := TryReceive(false);
        return true, if r.Some? then r else Some(Err(BrowserClosed));
      }
      if coming == [] {
        return true, None;
      }
      m := LookAround();
      EndsOrGoesOn(s, watch, Waiting);
      if m.timeUp {
        return true, Some(Err(Timeout));
      }
      r := TryReceive(m.hungUp);
      return r.Some?, r;
    }

    /** The receive loop, with the browser in view if there is one. */
    method ReceiveChecked(browser: AuthBrowserMonitor?) returns (r: Option<Result<Message, Failure>>)
      requires browser != null ==> browser.Valid()
      modifies this`inbox, this`coming, browser
      ensures browser != null ==> browser.Valid()
      ensures (SceneNow(LooksOf(browser)), r) == Listen(old(SceneNow(LooksOf(browser))), WatchOf(browser), Polling)
    {
      var over;
      over, r := false, None;
      while !over
        invariant browser != null ==> browser.Valid()
        invariant Listen(old(SceneNow(LooksOf(browser))), WatchOf(browser), Polling) ==
                    if over then (SceneNow(LooksOf(browser)), r)
                    else Listen(SceneNow(LooksOf(browser)), WatchOf(browser), Polling)
        decreases !over, |coming|
      {
        over, r := Turn(browser);
      }
    }

    /** Wait for the reply to one request. */
    method Request(id: nat) returns (r: Option<Result<string, Failure>>)
      modifies this
      ensures (SceneNow([]), r) == Ask(old(SceneNow([])), id)
    {
      ghost var goal := Ask(Scene(pending, inbox, coming, []), id);
      while true
        invariant goal == Ask(Scene(pending, inbox, coming, []), id)
        decreases |coming|
      {
        var received := ReceiveChecked(null);
        if received.None? {
          return None;
        }
        if received.value.Err? {
          return Some(Err(received.value.error));
        }
        var m := received.value.value;
        if m.Reply? && m.id == id {
          return Some(m.outcome);
        }
        if m.Completed? {
          if |pending| >= MAX_QUEUE {
            return Some(Err(Service));
          }
          pending := pending + [m];
        }
      }
    }

    /** Wait for the verdict on a login. */
    method WaitLogin(loginId: string, browser: AuthBrowserMonitor?) returns (r: Option<Result<(), Failure>>)
      requires browser != null ==> browser.Valid()
      modifies this, browser
      ensures browser != null ==> browser.Valid()
      ensures (SceneNow(LooksOf(browser)), r) == Await(old(SceneNow(LooksOf(browser))), WatchOf(browser), loginId)
    {
      ghost var watch, looks := WatchOf(browser), LooksOf(browser);
      ghost var goal := Await(Scene(pending, inbox, coming, looks), watch, loginId);
      while true
        invariant browser != null ==> browser.Valid()
        invariant looks == LooksOf(browser)
        invariant goal == Await(Scene(pending, inbox, coming, looks), watch, loginId)
        decreases |coming|
      {
        var event: Message;
        if pending != [] {
          if coming == [] {
            return None;
          }
          var m := LookAround();
          if m.cancelled {
            return Some(Err(Cancelled));
          }
          event := pending[0];
          pending := pending[1..];
        } else {
          var received := ReceiveChecked(browser);
          looks := LooksOf(browser);
          if received.None? {
            return None;
          }
          if received.value.Err? {
            return Some(Err(received.value.error));
          }
          event := received.value.value;
        }
        if Concludes(event, loginId) {
          return Some(Verdict(event));
        }
      }
    }
  }

  // ----- A whole login -----

  /** A login from its first request on: how the scene is left, what the client announced as
      the id of the login, and the end of the wait. */
  function LoginOver(coming: seq<Moment>, watch: Option<nat>):
      (Scene, Option<Result<string, Failure>>, Option<Result<(), Failure>>)
  {
    var (s1, initialized) := Ask(Scene([], [], coming, []), 1);
    if initialized.None? then (s1, None, None)
    else if initialized.value.Err? then (s1, initialized, Some(Err(initialized.value.error)))
    else
      var (s2, announced) := Ask(s1, 2);
      if announced.None? then (s2, None, None)
      else if announced.value.Err? then (s2, announced, Some(Err(announced.value.error)))
      else
        var (s3, r) := Await(s2, watch, announced.value.value);
        (s3, announced, r)
  }

  method Login(session: RpcSession, browser: AuthBrowserMonitor?)
    returns (announced: Option<Result<string, Failure>>, r: Option<Result<(), Failure>>)
    requires session.pending == [] && session.inbox == []
    requires browser != null ==> browser.Valid() && browser.looks == []
    modifies session, browser
    ensures (session.SceneNow(session.LooksOf(browser)), announced, r) ==
              LoginOver(old(session.coming), session.WatchOf(browser))
  {
    var initialized := session.Request(1);
    if initialized.None? {
      return None, None;
    }
    if initialized.value.Err? {
      return initialized, Some(Err(initialized.value.error));
    }
    announced := session.Request(2);
    if announced.None? {
      return None, None;
    }
    if announced.value.Err? {
      return announced, Some(Err(announced.value.error));
    }
    r := session.WaitLogin(announced.value.value, browser);
  }

  /** What an answered request leaves. */
  predicate Answered(s: Scene, s': Scene, id: nat, outcome: Result<string, Failure>, read: seq<Message>) {
    && read + (s'.inbox + Arriving(s'.coming)) == s.inbox + Arriving(s.coming)
    && s'.pending == s.pending + Completions(read)
    && LeftOf(s'.coming, s.coming) && AnsweredBy(read, id, outcome)
  }

  /** Two requests lose nothing: what they read is queued as far as it decides on any login. */
  lemma AnsweredTwice(a: Scene, b: Scene, c: Scene, one: nat, two: nat, first: seq<Message>, second: seq<Message>,
                      initialized: Result<string, Failure>, announced: Result<string, Failure>)
    requires Answered(a, b, one, initialized, first) && Answered(b, c, two, announced, second)
    ensures Answered(a, c, two, announced, first + second)
  {
    CompletionsJoin(first, second);
    LeftTwice(a.coming, b.coming, c.coming);
    Regrouped(first, second, c.inbox + Arriving(c.coming));
    Regrouped(a.pending, Completions(first), Completions(second));
  }

  lemma AskedWell(s: Scene, id: nat) returns (read: seq<Message>)
    requires |s.pending| <= MAX_QUEUE && Ask(s, id).1.Some? && Ask(s, id).1.value.Ok?
    ensures Answered(s, Ask(s, id).0, id, Ask(s, id).1.value, read)
  {
    read := AskMeaning(s, id);
  }

  /** Taking the completions aside changes no verdict. */
  lemma SameVerdict(read: seq<Message>, rest: seq<Message>, loginId: string)
    ensures FirstVerdict(Completions(read) + rest, loginId) == FirstVerdict(read + rest, loginId)
  {
    VerdictOfParts(Completions(read), rest, loginId);
    VerdictOfParts(read, rest, loginId);
    CompletionsDecide(read, loginId);
  }

  /** All that had come, seen from before the requests: what they read comes first. */
  lemma ComeInAll(inbox: seq<Message>, coming: seq<Moment>, before: seq<Message>, all: seq<Moment>,
                  read: seq<Message>, left: seq<Moment>)
    requires LeftOf(left, all) && LeftOf(left, coming)
    requires read + (inbox + Arriving(coming)) == before + Arriving(all)
    ensures [] + before + ArrivedBy(all, left) == read + (inbox + ArrivedBy(coming, left))
  {
    ArrivingLeft(coming, left);
    ArrivingLeft(all, left);
    SameFrontTwice(read, inbox, Arriving(coming), ArrivedBy(coming, left), before, Arriving(all), ArrivedBy(all, left),
                   Arriving(left));
  }

  lemma SameFrontTwice(read: seq<Message>, inbox: seq<Message>, later: seq<Message>, here: seq<Message>,
                       before: seq<Message>, all: seq<Message>, there: seq<Message>, left: seq<Message>)
    requires later == here + left && all == there + left
    requires read + (inbox + later) == before + all
    ensures [] + before + there == read + (inbox + here)
  {
    assert read + (inbox + later) == read + (inbox + here) + left;
    assert before + all == ([] + before + there) + left;
    SameFront(read + (inbox + here), [] + before + there, left);
  }

  /** No completion of the login has come, seen from before the requests. */
  lemma SilentInAll(s: Scene, watch: Option<nat>, loginId: string, whole: Scene, read: seq<Message>, s': Scene)
    requires whole.pending == [] && s.pending == Completions(read) && LeftOf(s.coming, whole.coming)
    requires read + (s.inbox + Arriving(s.coming)) == whole.inbox + Arriving(whole.coming)
    requires SilentlyClosed(s, watch, loginId, s')
    ensures SilentlyClosed(whole, watch, loginId, s')
  {
    var left := s'.coming;
    var since := s.inbox + ArrivedBy(s.coming, left);
    LeftTwice(whole.coming, s.coming, left);
    ComeInAll(s.inbox, s.coming, whole.inbox, whole.coming, read, left);
    FirstVerdictMeaning(Come(s, left), loginId);
    assert Come(s, left) == Completions(read) + since;
    SameVerdict(read, since, loginId);
    FirstVerdictMeaning(Come(whole, left), loginId);
  }

  /** What the end of a login means. Its verdict is that of the first completion for its id among
      all messages of the session, before or after the reply that announced the id; and it is
      reported as closed only if no completion for its id has come since the session began,
      nobody cancelled at that moment, and the browser looked closed for eight seconds. */
  ghost predicate LoggedIn(whole: Scene, watch: Option<nat>, announced: Result<string, Failure>,
                           s': Scene, r: Option<Result<(), Failure>>)
    requires announced.Ok?
  {
    && Reply(2, announced) in whole.Unread()
    && (r.None? ==> s'.coming == [])
    && (r.Some? && (r.value.Ok? || r.value.error.Refused?) ==> FirstVerdict(whole.Unread(), announced.value) == r)
    && (r == Some(Err(BrowserClosed)) ==> SilentlyClosed(whole, watch, announced.value, s'))
  }

  lemma WaitMeaning(whole: Scene, s: Scene, watch: Option<nat>, announced: Result<string, Failure>, read: seq<Message>,
                    s': Scene, r: Option<Result<(), Failure>>, more: seq<Message>)
    requires whole.pending == [] && Answered(whole, s, 2, announced, read) && announced.Ok?
    requires Awaited(s, watch, announced.value, s', r, more)
    ensures LoggedIn(whole, watch, announced, s', r)
  {
    var rest := s.inbox + Arriving(s.coming);
    assert whole.Unread() == read + rest && s.pending == Completions(read);
    assert read[|read| - 1] in read + rest;
    Regrouped(Completions(read), s.inbox, Arriving(s.coming));
    SameVerdict(read, rest, announced.value);
    if r == Some(Err(BrowserClosed)) {
      NoVerdictInSilence(s, watch, announced.value, s', more);
      SilentInAll(s, watch, announced.value, whole, read, s');
    }
  }

  /** A request that fails ends the login with its failure, and a login has no answer only if its
      history ends before. */
  lemma FailedRequestEndsTheLogin(coming: seq<Moment>, watch: Option<nat>)
    ensures var (s', announced, r) := LoginOver(coming, watch);
            && (announced.Some? && announced.value.Err? ==> r == Some(Err(announced.value.error)))
            && (announced.None? ==> r.None?) && (r.None? ==> s'.coming == [])
  {
    var whole := Scene([], [], coming, []);
    var (s1, initialized) := Ask(whole, 1);
    var early := AskMeaning(whole, 1);
    if initialized.Some? && initialized.value.Ok? {
      var (s2, announced) := Ask(s1, 2);
      var late := AskMeaning(s1, 2);
      if announced.Some? && announced.value.Ok? {
        AskKeepsLooks(whole, s1, s2);
        var more := AwaitMeaning(s2, watch, announced.value.value);
      }
    }
  }

  lemma AskKeepsLooks(a: Scene, b: Scene, c: Scene)
    requires a.looks == [] && b.looks == a.looks && c.looks == b.looks
    ensures Paced(c.looks)
  {
  }

  lemma LoginMeaning(coming: seq<Moment>, watch: Option<nat>)
    ensures var (s', announced, r) := LoginOver(coming, watch);
            announced.Some? && announced.value.Ok? ==> LoggedIn(Scene([], [], coming, []), watch, announced.value, s', r)
  {
    var whole := Scene([], [], coming, []);
    var (s1, initialized) := Ask(whole, 1);
    if initialized.Some? && initialized.value.Ok? {
      var (s2, announced) := Ask(s1, 2);
      if announced.Some? && announced.value.Ok? {
        var first := AskedWell(whole, 1);
        var second := AskedWell(s1, 2);
        AnsweredTwice(whole, s1, s2, 1, 2, first, second, initialized.value, announced.value);
        var (s', r) := Await(s2, watch, announced.value.value);
        var more := AwaitMeaning(s2, watch, announced.value.value);
        WaitMeaning(whole, s2, watch, announced.value, first + second, s', r, more);
      }
    }
  }
}
