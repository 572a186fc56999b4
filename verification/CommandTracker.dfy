/** In-flight commands and the one-place channels their results go to, as a state machine over the tracker's locked sections:
    Complete takes the command out under the lock and sends afterwards, so other sections run in between. */
module CommandTracker {
  import opened Text

  datatype Chan = Chan(sends: nat, closed: bool)

  datatype Command = Command(chan: nat, submitted: int)

  /** `sending` are the channels that some Complete has taken out and not yet sent to. */
  datatype State = State(pending: map<string, Command>, sending: set<nat>, chans: map<nat, Chan>)

  datatype Step =
    | Track(id: string, chan: nat, now: int)
    | Take(id: string)
    | Send(chan: nat)
    | Cancel(id: string)
    | Expire(cutoff: int)

  predicate Overdue(s: State, id: string, cutoff: int) {
    id in s.pending && s.pending[id].submitted < cutoff
  }

  /** A new command gets a new channel; a send only follows a take. */
  predicate Enabled(s: State, step: Step) {
    match step
    case Track(_, chan, _) => chan !in s.chans
    case Send(chan) => chan in s.sending
    case _ => true
  }

  function OverdueChans(s: State, cutoff: int): set<nat> {
    set id | id in s.pending && Overdue(s, id, cutoff) :: s.pending[id].chan
  }

  function Apply(s: State, step: Step): State {
    match step
    case Track(id, chan, now) => s.(pending := s.pending[id := Command(chan, now)], chans := s.chans[chan := Chan(0, false)])
    case Take(id) =>
      if id in s.pending then s.(pending := s.pending - {id}, sending := s.sending + {s.pending[id].chan}) else s
    case Send(chan) => s.(sending := s.sending - {chan}, chans := Sent(s.chans, {chan}))
    case Cancel(id) =>
      if id in s.pending && s.pending[id].chan in s.chans
      then s.(pending := s.pending - {id}, chans := s.chans[s.pending[id].chan := s.chans[s.pending[id].chan].(closed := true)])
      else s
    case Expire(cutoff) =>
      s.(pending := map id | id in s.pending && !Overdue(s, id, cutoff) :: s.pending[id], chans := Sent(s.chans, OverdueChans(s, cutoff)))
  }

  function Sent(chans: map<nat, Chan>, to: set<nat>): map<nat, Chan> {
    map c | c in chans :: if c in to then chans[c].(sends := chans[c].sends + 1) else chans[c]
  }

  // ---- no send blocks or fails, and a caller hears at most once ----

  predicate Silent(s: State, chan: nat) {
    chan in s.chans && s.chans[chan] == Chan(0, false)
  }

  /** Nothing has happened yet on the channels of pending commands and of sends under way; these channels are all
      different; and on every channel at most one thing ever happens, one send or the close. */
  ghost predicate Inv(s: State) {
    && (forall id :: id in s.pending ==> Silent(s, s.pending[id].chan) && s.pending[id].chan !in s.sending)
    && (forall c :: c in s.sending ==> Silent(s, c))
    && (forall a, b :: a in s.pending && b in s.pending && a != b ==> s.pending[a].chan != s.pending[b].chan)
    && (forall c :: c in s.chans ==> AtMostOnce(s.chans[c]))
  }

  predicate AtMostOnce(c: Chan) {
    c.sends + (if c.closed then 1 else 0) <= 1
  }

  /** The channels a step sends to. */
  function Targets(s: State, step: Step): set<nat> {
    match step
    case Send(chan) => {chan}
    case Expire(cutoff) => OverdueChans(s, cutoff)
    case _ => {}
  }

  lemma {:induction false} OverdueIs(s: State, cutoff: int, c: nat)
    requires Inv(s)
    ensures c in OverdueChans(s, cutoff) ==> Silent(s, c) && c !in s.sending
    ensures forall id :: id in s.pending && !Overdue(s, id, cutoff) ==> s.pending[id].chan !in OverdueChans(s, cutoff)
  {}

  lemma {:induction false} StepKeeps(s: State, step: Step)
    requires Inv(s) && Enabled(s, step)
    ensures Inv(Apply(s, step))
    ensures forall c :: c in Targets(s, step) ==> Silent(s, c)
  {
    if step.Expire? {
      forall c ensures c in OverdueChans(s, step.cutoff) ==> Silent(s, c) && c !in s.sending { OverdueIs(s, step.cutoff, c); }
      OverdueIs(s, step.cutoff, 0);
    }
  }

  predicate CanRun(s: State, steps: seq<Step>)
    decreases |steps|
  {
    steps == [] || (Enabled(s, steps[0]) && CanRun(Apply(s, steps[0]), steps[1..]))
  }

  function Run(s: State, steps: seq<Step>): State
    decreases |steps|
  {
    if steps == [] then s else Run(Apply(s, steps[0]), steps[1..])
  }

  const START := State(map[], {}, map[])

  lemma {:induction false} RunKeeps(s: State, steps: seq<Step>)
    requires Inv(s) && CanRun(s, steps)
    ensures Inv(Run(s, steps))
    decreases |steps|
  {
    if steps != [] {
      StepKeeps(s, steps[0]);
      RunKeeps(Apply(s, steps[0]), steps[1..]);
    }
  }

  /** Over every interleaving of track, complete, cancel and expiry, each channel sees at most one send or close, and the next
      step only sends to channels on which nothing has happened: no send finds its channel full or closed, so the send that
      expiry makes under the lock never blocks the tracker. */
  lemma {:induction false} AtMostOneResult(steps: seq<Step>, next: Step)
    requires CanRun(START, steps) && Enabled(Run(START, steps), next)
    ensures var s := Run(START, steps);
            (forall c :: c in s.chans ==> AtMostOnce(s.chans[c])) && forall c :: c in Targets(s, next) ==> Silent(s, c)
  {
    RunKeeps(START, steps);
    StepKeeps(Run(START, steps), next);
  }

  // ---- a command tracked again under its id is never answered ----

  ghost predicate Forgotten(s: State, c: nat) {
    Silent(s, c) && c !in s.sending && forall id :: id in s.pending ==> s.pending[id].chan != c
  }

  lemma {:induction false} TrackingAgainForgets(s: State, id: string, chan: nat, now: int)
    requires Inv(s) && id in s.pending && chan !in s.chans
    ensures Forgotten(Apply(s, Track(id, chan, now)), s.pending[id].chan)
  {}

  lemma {:induction false} ForgottenForever(s: State, steps: seq<Step>, c: nat)
    requires Forgotten(s, c) && CanRun(s, steps)
    ensures Forgotten(Run(s, steps), c)
    decreases |steps|
  {
    if steps != [] { ForgottenForever(Apply(s, steps[0]), steps[1..], c); }
  }

  /** Every other step that takes a command out sees to its channel: it is sent to, closed, or about to be sent to. */
  lemma {:induction false} TakenOutIsAnswered(s: State, step: Step, id: string)
    requires Inv(s) && Enabled(s, step) && id in s.pending && !(step.Track? && step.id == id)
    ensures var s', c := Apply(s, step), s.pending[id].chan;
            c in s'.chans && ((id in s'.pending && s'.pending[id] == s.pending[id]) || c in s'.sending || s'.chans[c].sends == 1 || s'.chans[c].closed)
  {
    if step.Expire? && Overdue(s, id, step.cutoff) { assert s.pending[id].chan in OverdueChans(s, step.cutoff); }
  }

  /** Expiry takes out exactly the commands submitted before the cutoff and sends each of them its result; the others are
      left as they are. */
  lemma {:induction false} ExpiryAnswers(s: State, cutoff: int, id: string)
    requires Inv(s) && id in s.pending
    ensures var s', c := Apply(s, Expire(cutoff)), s.pending[id];
            if c.submitted < cutoff then id !in s'.pending && c.chan in s'.chans && s'.chans[c.chan] == Chan(1, false)
            else id in s'.pending && s'.pending[id] == c && c.chan in s'.chans && s'.chans[c.chan] == Chan(0, false)
  {
    OverdueIs(s, cutoff, s.pending[id].chan);
    if s.pending[id].submitted < cutoff { assert s.pending[id].chan in OverdueChans(s, cutoff); }
  }

  /** Cancelling a pending command takes it out and closes its channel, and touches no other. */
  lemma {:induction false} CancelCloses(s: State, id: string)
    requires Inv(s) && id in s.pending
    ensures var s', c := Apply(s, Cancel(id)), s.pending[id].chan;
            && s'.pending == s.pending - {id} && s'.chans == s.chans[c := Chan(0, true)]
  {}

  /** Completing one takes it out and then sends to its channel, whatever happens in between. */
  lemma {:induction false} CompletionAnswers(s: State, id: string, steps: seq<Step>)
    requires Inv(s) && id in s.pending && CanRun(Apply(s, Take(id)), steps) && forall i :: 0 <= i < |steps| ==> steps[i] != Send(s.pending[id].chan)
    ensures var c := s.pending[id].chan;
            var s' := Run(Apply(s, Take(id)), steps);
            id !in Apply(s, Take(id)).pending && Enabled(s', Send(c)) && c in Apply(s', Send(c)).chans && Apply(s', Send(c)).chans[c] == Chan(1, false)
  {
    var c, taken := s.pending[id].chan, Apply(s, Take(id));
    StepKeeps(s, Take(id));
    StaysUnderWay(taken, steps, c);
    RunKeeps(taken, steps);
  }

  lemma {:induction false} StaysUnderWay(s: State, steps: seq<Step>, c: nat)
    requires c in s.sending && CanRun(s, steps) && forall i :: 0 <= i < |steps| ==> steps[i] != Send(c)
    ensures c in Run(s, steps).sending
    decreases |steps|
  {
    if steps != [] {
      assert steps[0] != Send(c);
      forall i | 0 <= i < |steps[1..]| ensures steps[1..][i] != Send(c) { assert steps[1..][i] == steps[i + 1]; }
      StaysUnderWay(Apply(s, steps[0]), steps[1..], c);
    }
  }
}
