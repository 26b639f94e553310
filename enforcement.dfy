/** What happens once an update has found at least one infringement: the
    player is disabled, PvP is forced off when DisablePvP is set, and a warning
    goes out unless the previous one is less than MessageDisplayDelayInMS old.
    The per-player "pvpchecks_lastwarned" data is a map from player to the time
    (in milliseconds) of the last warning sent, as it reads back from the
    stored string. */
module Enforcement {
  import opened Host
  import Messages

  /** `DateTime.UtcNow.ToString()` read back with `DateTime.Parse`: the string
      keeps whole seconds only, so the stored time is `now` rounded down to the
      second. */
  function Stamp(now: int): (s: int)
    ensures s <= now < s + 1000
    ensures s % 1000 == 0
  {
    now - now % 1000
  }

  /** The last warning to this player was recorded less than `delay` ago. */
  predicate InCooldown(lastWarned: map<PlayerId, int>, id: PlayerId, now: int, delay: int) {
    id in lastWarned && now - lastWarned[id] < delay
  }

  /** The warning goes out: the player is out of cooldown and the record holds
      every template the warning looks up. */
  predicate Warns(lastWarned: map<PlayerId, int>, id: PlayerId, now: int, delay: int,
                  message: seq<Line>, messages: map<Messages.MessageKey, string>) {
    !InCooldown(lastWarned, id, now, delay) && Renders(message, messages)
  }

  datatype Outcome = Outcome(actions: seq<Action>, lastWarned: map<PlayerId, int>)

  function Sends(actions: seq<Action>): nat {
    if actions == [] then 0
    else (if actions[|actions| - 1].Send? then 1 else 0) + Sends(actions[..|actions| - 1])
  }

  /** Penalties first (always), then at most one warning carrying `message`.
      Out of cooldown, a template missing from `messages` throws before the
      time is recorded, so nothing more happens. The timestamp moves exactly
      when a warning is sent. */
  function Enforce(id: PlayerId, disablePvP: bool, delay: int, lastWarned: map<PlayerId, int>, now: int,
                   message: seq<Line>, messages: map<Messages.MessageKey, string>): (o: Outcome)
    ensures |o.actions| == 1 + (if disablePvP then 1 else 0)
      + (if Warns(lastWarned, id, now, delay, message, messages) then 1 else 0)
    ensures o.actions[0] == Disable(id)
    ensures SetPvP(id, false) in o.actions <==> disablePvP
    ensures !Warns(lastWarned, id, now, delay, message, messages) ==>
      Sends(o.actions) == 0 && o.lastWarned == lastWarned
    ensures Warns(lastWarned, id, now, delay, message, messages) ==>
      && Sends(o.actions) == 1
      && o.actions[|o.actions| - 1] == Send(id, ErrorMessage, message)
      && o.lastWarned == lastWarned[id := Stamp(now)]
  {
    var penalties := [Disable(id)] + (if disablePvP then [SetPvP(id, false)] else []);
    assert Sends([Disable(id)]) == 0;
    assert Sends(penalties) == 0 by {
      if disablePvP { assert penalties[..1] == [Disable(id)]; }
    }
    if !Warns(lastWarned, id, now, delay, message, messages) then Outcome(penalties, lastWarned)
    else
      assert (penalties + [Send(id, ErrorMessage, message)])[..|penalties|] == penalties;
      Outcome(penalties + [Send(id, ErrorMessage, message)], lastWarned[id := Stamp(now)])
  }

  /** A proof step, not a property: the outcome spelled out, for the methods
      that build it step by step. */
  lemma EnforceSteps(id: PlayerId, disablePvP: bool, delay: int, lastWarned: map<PlayerId, int>, now: int,
                     message: seq<Line>, messages: map<Messages.MessageKey, string>)
    ensures var penalties := [Disable(id)] + (if disablePvP then [SetPvP(id, false)] else []);
      Enforce(id, disablePvP, delay, lastWarned, now, message, messages) ==
        if !Warns(lastWarned, id, now, delay, message, messages) then Outcome(penalties, lastWarned)
        else Outcome(penalties + [Send(id, ErrorMessage, message)], lastWarned[id := Stamp(now)])
  {
  }

  /** Two offending updates, the second less than the delay after the stored
      (rounded-down) time of the first warning: both disable, only the first
      warns, and the second leaves the timestamp where the first put it. */
  lemma RepeatWithinDelayIsSilent(id: PlayerId, disablePvP: bool, delay: int, lastWarned: map<PlayerId, int>,
                                  messages: map<Messages.MessageKey, string>,
                                  t1: int, t2: int, m1: seq<Line>, m2: seq<Line>)
    requires Warns(lastWarned, id, t1, delay, m1, messages)
    requires t1 <= t2 < Stamp(t1) + delay
    ensures var first := Enforce(id, disablePvP, delay, lastWarned, t1, m1, messages);
      var second := Enforce(id, disablePvP, delay, first.lastWarned, t2, m2, messages);
      && Sends(first.actions) == 1 && Sends(second.actions) == 0
      && second.actions[0] == Disable(id)
      && second.lastWarned == first.lastWarned && second.lastWarned[id] == Stamp(t1)
  {
  }

  /** Once the delay has passed since the stored time, the next offending
      update warns again. Since the stored time is rounded down, this is at
      most 999 ms sooner than `delay` after the first warning. */
  lemma WarnsAgainAfterDelay(id: PlayerId, disablePvP: bool, delay: int, lastWarned: map<PlayerId, int>,
                             messages: map<Messages.MessageKey, string>,
                             t1: int, t2: int, m1: seq<Line>, m2: seq<Line>)
    requires Warns(lastWarned, id, t1, delay, m1, messages) && Renders(m2, messages)
    requires t2 >= Stamp(t1) + delay
    ensures var first := Enforce(id, disablePvP, delay, lastWarned, t1, m1, messages);
      var second := Enforce(id, disablePvP, delay, first.lastWarned, t2, m2, messages);
      Sends(second.actions) == 1 && second.lastWarned[id] == Stamp(t2)
  {
  }

  /** A player never warned before is warned at once, when the warning's
      templates exist; other players' timestamps are untouched. */
  lemma FirstOffenceWarns(id: PlayerId, disablePvP: bool, delay: int, lastWarned: map<PlayerId, int>, now: int,
                          message: seq<Line>, messages: map<Messages.MessageKey, string>)
    requires id !in lastWarned && Renders(message, messages)
    ensures var o := Enforce(id, disablePvP, delay, lastWarned, now, message, messages);
      && Sends(o.actions) == 1
      && (forall other :: other != id ==> (other in o.lastWarned <==> other in lastWarned))
      && (forall other :: other != id && other in lastWarned ==> o.lastWarned[other] == lastWarned[other])
  {
  }

  /** A warning whose template is missing is never sent and never recorded:
      every later offence disables the player again, and none warns. */
  lemma MissingTemplateNeverWarns(id: PlayerId, disablePvP: bool, delay: int, lastWarned: map<PlayerId, int>,
                                  messages: map<Messages.MessageKey, string>,
                                  t1: int, t2: int, m1: seq<Line>, m2: seq<Line>)
    requires !Renders(m1, messages) && !Renders(m2, messages)
    ensures var first := Enforce(id, disablePvP, delay, lastWarned, t1, m1, messages);
      var second := Enforce(id, disablePvP, delay, first.lastWarned, t2, m2, messages);
      && Sends(first.actions) == 0 && Sends(second.actions) == 0
      && second.actions[0] == Disable(id) && second.lastWarned == lastWarned
  {
  }
}
