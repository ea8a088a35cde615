/** The watch on the login browser. Times are in milliseconds. */
module LoginBrowser {
  import opened Basics

  const GRACE := 8_000
  const WINDOW_WAIT := 10_000
  const CHECK_EVERY := 500

  /** One look at the browser process; Unknown when the system could not tell. */
  datatype Sight = Unknown | Known(running: bool, hasWindow: Option<bool>)

  datatype Look = Look(at: nat, sight: Sight)

  predicate ShowsWindow(look: Look) {
    look.sight.Known? && look.sight.running && look.sight.hasWindow == Some(true)
  }

  predicate SeenWindow(looks: seq<Look>)
    decreases |looks|
  {
    looks != [] && (ShowsWindow(looks[|looks| - 1]) || SeenWindow(looks[..|looks| - 1]))
  }

  lemma {:induction false} SeenWindowMeaning(looks: seq<Look>)
    ensures SeenWindow(looks) <==>
              exists i | 0 <= i < |looks| ::
                looks[i].sight.Known? && looks[i].sight.running && looks[i].sight.hasWindow == Some(true)
    decreases |looks|
  {
    if looks != [] {
      var rest := looks[..|looks| - 1];
      SeenWindowMeaning(rest);
      assert forall i | 0 <= i < |rest| :: rest[i] == looks[i];
    }
  }

  /** A look that counts as closed, given what was seen before it. */
  predicate CountsAsClosed(seen: bool, started: nat, look: Look) {
    look.sight.Known? &&
    (|| !look.sight.running
     || (look.sight.hasWindow == Some(false) && (seen || started + 10_000 <= look.at)))
  }

  /** When the unbroken run of closed looks at the end began. */
  function ClosedSince(looks: seq<Look>, started: nat): Option<nat>
    decreases |looks|
  {
    if looks == [] then None
    else
      var last, rest := looks[|looks| - 1], looks[..|looks| - 1];
      if !CountsAsClosed(SeenWindow(rest), started, last) then None
      else if ClosedSince(rest, started).Some? then ClosedSince(rest, started)
      else Some(last.at)
  }

  /** From the look `k` on, every look counted as closed. */
  predicate UnbrokenFrom(looks: seq<Look>, started: nat, k: nat) {
    k < |looks| && forall i | k <= i < |looks| :: CountsAsClosed(SeenWindow(looks[..i]), started, looks[i])
  }

  /** The looks are at least half a second apart. */
  predicate Paced(looks: seq<Look>) {
    forall i, j | 0 <= i < j < |looks| :: looks[i].at + 500 <= looks[j].at
  }

  /** Some unbroken run of closed looks, up to the last one, began eight seconds ago or more. */
  ghost predicate ClosedForGrace(looks: seq<Look>, started: nat, now: nat) {
    exists k: nat :: UnbrokenFrom(looks, started, k) && looks[k].at + 8_000 <= now
  }

  /** The recorded start is that of an unbroken run. */
  lemma {:induction false} ClosedSinceMeaning(looks: seq<Look>, started: nat) returns (k: nat)
    requires ClosedSince(looks, started).Some?
    ensures UnbrokenFrom(looks, started, k) && looks[k].at == ClosedSince(looks, started).value
    decreases |looks|
  {
    var rest := looks[..|looks| - 1];
    if ClosedSince(rest, started).Some? {
      k := ClosedSinceMeaning(rest, started);
      forall i | k <= i < |looks|
        ensures CountsAsClosed(SeenWindow(looks[..i]), started, looks[i])
      {
        if i < |rest| {
          assert rest[..i] == looks[..i] && rest[i] == looks[i];
        }
      }
    } else {
      k := |looks| - 1;
    }
  }

  /** An unbroken run is recorded from its first look or from an earlier one. */
  lemma {:induction false} UnbrokenRunIsRecorded(looks: seq<Look>, started: nat, k: nat)
    requires Paced(looks) && UnbrokenFrom(looks, started, k)
    ensures ClosedSince(looks, started).Some? && ClosedSince(looks, started).value <= looks[k].at
    decreases |looks|
  {
    var last, rest := |looks| - 1, looks[..|looks| - 1];
    assert looks[..last] == rest && CountsAsClosed(SeenWindow(looks[..last]), started, looks[last]);
    if k < last {
      forall i | k <= i < |rest|
        ensures CountsAsClosed(SeenWindow(rest[..i]), started, rest[i])
      {
        assert rest[..i] == looks[..i] && rest[i] == looks[i];
      }
      UnbrokenRunIsRecorded(rest, started, k);
    } else if ClosedSince(rest, started).Some? {
      var j := ClosedSinceMeaning(rest, started);
      assert looks[j].at <= looks[k].at;
    }
  }

  predicate ClosedLongEnough(looks: seq<Look>, started: nat, now: nat) {
    ClosedSince(looks, started).Some? && ClosedSince(looks, started).value + GRACE <= now
  }

  /** The recorded run is eight seconds old exactly when every look of the last eight seconds
      or more counted as closed. */
  lemma ClosedLongEnoughMeaning(looks: seq<Look>, started: nat, now: nat)
    requires Paced(looks)
    ensures ClosedLongEnough(looks, started, now) <==> ClosedForGrace(looks, started, now)
  {
    if ClosedLongEnough(looks, started, now) {
      var k := ClosedSinceMeaning(looks, started);
    }
    if ClosedForGrace(looks, started, now) {
      var k: nat :| UnbrokenFrom(looks, started, k) && looks[k].at + GRACE <= now;
      UnbrokenRunIsRecorded(looks, started, k);
    }
  }

  /** What one more look adds: it shows a window or not, and carries on, starts or ends the
      run of closed looks. */
  lemma LookStep(looks: seq<Look>, look: Look, started: nat)
    ensures SeenWindow(looks + [look]) == (ShowsWindow(look) || SeenWindow(looks))
    ensures ClosedSince(looks + [look], started) ==
              if !CountsAsClosed(SeenWindow(looks), started, look) then None
              else if ClosedSince(looks, started).Some? then ClosedSince(looks, started)
              else Some(look.at)
  {
  }

  /** When the next look is due. */
  function DueLook(looks: seq<Look>, started: nat): nat {
    if looks == [] then started else looks[|looks| - 1].at + CHECK_EVERY
  }

  class AuthBrowserMonitor {
    const started: nat
    var nextCheck: nat
    var seenWindow: bool
    var closedSince: Option<nat>
    ghost var looks: seq<Look>

    ghost predicate Valid()
      reads this
    {
      && seenWindow == SeenWindow(looks)
      && closedSince == ClosedSince(looks, started)
      && nextCheck == DueLook(looks, started)
      && Paced(looks)
    }

    constructor (started: nat)
      ensures Valid() && looks == [] && this.started == started
    {
      this.started, nextCheck, seenWindow, closedSince, looks := started, started, false, None, [];
    }

    /** Take in one sight of the browser process. */
    method Observe(now: nat, sight: Sight) returns (closed: bool)
      requires sight.Known?
      modifies this`seenWindow, this`closedSince
      ensures seenWindow == (ShowsWindow(Look(now, sight)) || old(seenWindow))
      ensures closedSince == if !CountsAsClosed(old(seenWindow), started, Look(now, sight)) then None
                             else if old(closedSince).Some? then old(closedSince)
                             else Some(now)
      ensures closed <==> closedSince.Some? && closedSince.value + GRACE <= now
    {
      var gone := !sight.running;
      if sight.running {
        if sight.hasWindow == Some(true) {
          seenWindow := true;
        } else if sight.hasWindow == Some(false) {
          gone := seenWindow || started + WINDOW_WAIT <= now;
        }
      }
      if !gone {
        closedSince := None;
        return false;
      }
      if closedSince.None? {
        closedSince := Some(now);
      }
      return closedSince.value + GRACE <= now;
    }

    /** Look at the browser if it is time to; report it closed exactly when the recorded run of
        closed looks is eight seconds old. */
    method Check(now: nat, sight: Sight) returns (closed: bool)
      requires Valid()
      modifies this
      ensures Valid()
      ensures now < DueLook(old(looks), started) ==> !closed && looks == old(looks)
      ensures DueLook(old(looks), started) <= now ==>
                && looks == old(looks) + [Look(now, sight)]
                && (closed <==> ClosedLongEnough(looks, started, now))
    {
      if now < nextCheck {
        return false;
      }
      ghost var before, look := looks, Look(now, sight);
      ghost var after := before + [look];
      LookStep(before, look, started);
      assert after[|after| - 1] == look;
      nextCheck := now + CHECK_EVERY;
      looks := after;
      if sight.Unknown? {
        closedSince, closed := None, false;
      } else {
        closed := Observe(now, sight);
      }
    }
  }
}
