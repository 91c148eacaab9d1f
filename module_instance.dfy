/** The module instance: its connection config, the state dictionary the
    polling loop fills, the Bible version choices, and the polling timer. */
module Instance {
  import opened Wrappers
  import opened Values
  import opened Timers
  import opened Countdown
  import opened StateMerge
  import opened CommandClient

  /** `bible_versions.data.map(v => ({ id: v.key, label: v.title }))`. */
  function VersionChoices(versions: seq<BibleVersion>): (choices: seq<Choice>)
    ensures |choices| == |versions|
    ensures forall i | 0 <= i < |versions| ::
      choices[i].id == versions[i].key && choices[i].caption == versions[i].title
  {
    if versions == [] then []
    else [Choice(versions[0].key, versions[0].title)] + VersionChoices(versions[1..])
  }

  class ModuleInstance {
    /** `this.config`; `None` until the first configuration update. */
    var config: Option<Config>
    /** `this.state`, the dictionary published to the host's variables and feedbacks. */
    var state: map<string, Value>
    /** `this.CHOICES_BIBLE_VERSIONS`. */
    var choices: seq<Choice>
    /** `this.pollTimer`, the handle of the polling interval. */
    var pollTimer: Option<TimerId>
    /** The host's timers. */
    const timers: TimerHost
    /** Every interval this instance has ever scheduled. */
    ghost var installed: set<TimerId>

    /** The intervals this instance scheduled that are still running. */
    ghost function ActiveTimers(): set<TimerId>
      reads this, timers
    {
      installed * timers.live
    }

    /** The only interval of this instance that may still run is the one
      `pollTimer` holds. */
    ghost predicate Valid()
      reads this, timers
    {
      && timers.Valid()
      && (forall t | t in installed :: t < timers.next)
      && (pollTimer.Some? ==> pollTimer.value in installed)
      && ActiveTimers() <= (if pollTimer.Some? then {pollTimer.value} else {})
    }

    constructor (timers: TimerHost)
      requires timers.Valid()
      ensures Valid() && this.timers == timers
      ensures config == None && state == map[] && choices == [] && pollTimer == None
      ensures installed == {}
    {
      this.timers := timers;
      config, state, choices, pollTimer := None, map[], [], None;
      installed := {};
    }

    /** `initPolling`: clears the running interval, if any, then schedules a
      new one. Afterwards exactly one interval of this instance runs. */
    method InitPolling()
      requires Valid()
      modifies this, timers
      ensures Valid()
      ensures pollTimer.Some? && pollTimer.value !in old(timers.live)
      ensures timers.live ==
        (if old(pollTimer).Some? then old(timers.live) - {old(pollTimer).value} else old(timers.live))
          + {pollTimer.value}
      ensures installed == old(installed) + {pollTimer.value}
      ensures ActiveTimers() == {pollTimer.value}
      ensures config == old(config) && state == old(state) && choices == old(choices)
    {
      if pollTimer.Some? {
        timers.ClearInterval(pollTimer.value);
      }
      var id := timers.SetInterval();
      pollTimer := Some(id);
      installed := installed + {id};
    }

    /** `configUpdated(c)`: records the config, reads the version list from the
      decoded `GetBibleVersions` response and restarts polling. `versions` is
      `None` when that response has no `data` array; `.map` then throws, so
      the choices and the polling interval stay as they were. */
    method ConfigUpdated(c: Config, versions: Option<seq<BibleVersion>>) returns (ok: bool)
      requires Valid()
      modifies this, timers
      ensures Valid()
      ensures config == Some(c) && state == old(state)
      ensures ok == versions.Some?
      ensures ok ==> choices == VersionChoices(versions.value)
      ensures ok ==> pollTimer.Some? && pollTimer.value !in old(timers.live)
      ensures ok ==> installed == old(installed) + {pollTimer.value}
      ensures ok ==> (timers.live ==
        (if old(pollTimer).Some? then old(timers.live) - {old(pollTimer).value} else old(timers.live))
          + {pollTimer.value})
      ensures ok ==> ActiveTimers() == {pollTimer.value}
      ensures !ok ==> choices == old(choices) && pollTimer == old(pollTimer)
      ensures !ok ==> timers.live == old(timers.live) && installed == old(installed)
    {
      config := Some(c);
      if versions.None? {
        return false;
      }
      choices := VersionChoices(versions.value);
      InitPolling();
      ok := true;
    }

    /** `init(c)`: starts the configuration update and empties the state. The
      update is not awaited, so its failure does not fail `init`; `ok` reports it. */
    method Init(c: Config, versions: Option<seq<BibleVersion>>) returns (ok: bool)
      requires Valid()
      modifies this, timers
      ensures Valid()
      ensures config == Some(c) && state == map[]
      ensures ok == versions.Some?
      ensures ok ==> choices == VersionChoices(versions.value)
      ensures ok ==> pollTimer.Some? && pollTimer.value !in old(timers.live)
      ensures ok ==> installed == old(installed) + {pollTimer.value}
      ensures ok ==> (timers.live ==
        (if old(pollTimer).Some? then old(timers.live) - {old(pollTimer).value} else old(timers.live))
          + {pollTimer.value})
      ensures ok ==> ActiveTimers() == {pollTimer.value}
      ensures !ok ==> choices == old(choices) && pollTimer == old(pollTimer)
      ensures !ok ==> timers.live == old(timers.live) && installed == old(installed)
    {
      ok := ConfigUpdated(c, versions);
      state := map[];
    }

    /** The body of the polling interval, over the five decoded responses:
      writes the state dictionary key by key. `published` is false when the
      countdown heuristic throws; the direct writes made before it stay, and
      the host is not notified. */
    method Tick(r: Responses) returns (published: bool)
      modifies this`state
      ensures state == NextState(old(state), r).state
      ensures published == NextState(old(state), r).Published?
    {
      state := state[ShowAlert := if r.alert.Some? then r.alert.value.show else Undefined];
      state := state[SlideId := if r.slide.Some? then r.slide.value.id else Undefined];
      state := state[SlideType := if r.slide.Some? then r.slide.value.kind else Undefined];
      state := state[SlideName := if r.slide.Some? then r.slide.value.name else Undefined];
      state := state[SongId := if r.slide.Some? then r.slide.value.songId else Undefined];
      state := state[ReferenceId := if r.slide.Some? then r.slide.value.referenceId else Undefined];
      state := state[SlideNumber := if r.slide.Some? then r.slide.value.slideNumber else Undefined];
      state := state[SlideCount := if r.slide.Some? then r.slide.value.totalSlides else Undefined];
      state := state[F8Active := r.f8];
      state := state[F9Active := r.f9];
      state := state[F10Active := r.f10];
      if r.slide.Some? {
        var t := ExtractCountdown(r.slide);
        if t.Err? {
          return false;
        }
        if t.value.None? {
          state := state[CountdownKey := Str("")];
        } else {
          state := state[CountdownKey := Str(t.value.value)];
        }
      } else {
        state := state[CountdownKey := Str("")];
      }
      published := true;
    }

    /** `do_command`'s request target, built from the config current at the call. */
    method CommandUrl(command: string) returns (url: string)
      requires config.Some?
      ensures url == RequestUrl(config.value, command)
    {
      url := RequestUrl(config.value, command);
    }
  }

  /** However the instance got there, at most one interval it scheduled is running. */
  lemma AtMostOneActiveTimer(inst: ModuleInstance)
    requires inst.Valid()
    ensures |inst.ActiveTimers()| <= 1
  {
    var active := inst.ActiveTimers();
    if inst.pollTimer.Some? {
      var t := inst.pollTimer.value;
      assert active <= {t};
      assert active == {} || active == {t};
    } else {
      assert active == {};
    }
  }

  /** Two configuration updates in a row leave one polling interval running,
      the one the second update scheduled. */
  method UpdateTwice(inst: ModuleInstance, c1: Config, c2: Config, versions: seq<BibleVersion>)
    requires inst.Valid()
    modifies inst, inst.timers
    ensures inst.Valid() && inst.config == Some(c2)
    ensures inst.pollTimer.Some? && inst.ActiveTimers() == {inst.pollTimer.value}
    ensures inst.timers.live - {inst.pollTimer.value} == old(inst.timers.live) - old(inst.ActiveTimers())
  {
    var ok1 := inst.ConfigUpdated(c1, Some(versions));
    var ok2 := inst.ConfigUpdated(c2, Some(versions));
  }
}
