/** The rotation of hasanah/extension.js: the `showText` closure that
    `activate` schedules with `setInterval`, its `showHadith` flag, the
    configuration listener that replaces the interval when `hasanah.delay`
    changes, and `deactivate` with the module-level `timerId` it tests. */
module Scheduler {
  import opened Wrappers
  import opened TextComposer

  /** The configured delay is in minutes; intervals are set in milliseconds. */
  const MS_PER_MINUTE: nat := 60000

  /** The notifications a rotation that starts in mode `showHadith` posts when
      its successive ticks see the given lookups: each tick shows the text of
      its mode and the next tick runs in the other mode. */
  function Replay(ticks: seq<Lookups>, showHadith: bool): (shown: seq<string>)
    ensures |shown| == |ticks|
  {
    if ticks == [] then [] else [GetText(showHadith, ticks[0])] + Replay(ticks[1..], !showHadith)
  }

  /** Tick `k` runs in the mode it started in exactly when `k` is even,
      whatever the lookups of the earlier ticks produced. */
  lemma {:induction false} ReplayAt(ticks: seq<Lookups>, showHadith: bool, k: nat)
    requires k < |ticks|
    ensures Replay(ticks, showHadith)[k] == GetText(showHadith != (k % 2 == 1), ticks[k])
    decreases k
  {
    if k > 0 {
      ReplayAt(ticks[1..], !showHadith, k - 1);
      assert ((!showHadith) != ((k - 1) % 2 == 1)) == (showHadith != (k % 2 == 1));
      assert Replay(ticks, showHadith)[k] == Replay(ticks[1..], !showHadith)[k - 1];
    }
  }

  /** Alternation from activation: tick 0, 2, 4, ... shows an ayah (or the
      fallback) and tick 1, 3, 5, ... a hadith (or the fallback). */
  lemma Alternation(ticks: seq<Lookups>, k: nat)
    requires k < |ticks|
    ensures Replay(ticks, false)[k] == GetText(k % 2 == 1, ticks[k])
    ensures k % 2 == 0 ==> (Replay(ticks, false)[k] == DEFAULT_DUAA <==> !AyahComplete(ticks[k].ayah))
    ensures k % 2 == 1 ==> (Replay(ticks, false)[k] == DEFAULT_DUAA <==> !HadithComplete(ticks[k].hadith))
  {
    ReplayAt(ticks, false, k);
  }

  /** One more tick appends the text of the mode reached after the earlier ticks. */
  lemma {:induction false} ReplayExtend(ticks: seq<Lookups>, showHadith: bool, next: Lookups)
    ensures Replay(ticks + [next], showHadith) ==
      Replay(ticks, showHadith) + [GetText(showHadith != (|ticks| % 2 == 1), next)]
    decreases |ticks|
  {
    var extended := ticks + [next];
    if ticks == [] {
      assert extended == [next];
    } else {
      assert extended[0] == ticks[0] && extended[1..] == ticks[1..] + [next];
      ReplayExtend(ticks[1..], !showHadith, next);
      assert ((!showHadith) != ((|ticks| - 1) % 2 == 1)) == (showHadith != (|ticks| % 2 == 1));
      assert Replay(extended, showHadith) == [GetText(showHadith, ticks[0])] + Replay(ticks[1..] + [next], !showHadith);
    }
  }

  /** The extension as loaded by the host: the module-level `timerId`, the
      state `activate`'s closures capture, and the host's table of live
      intervals. */
  class Extension {
    /** The module-level `let timerId` (`None` while `undefined`/`null`). */
    var moduleTimerId: Option<nat>
    /** The host's live intervals: handle to period in milliseconds. */
    var liveTimers: map<nat, nat>
    /** The handle the host gives to the next interval it creates. */
    var nextHandle: nat
    /** Whether `activate` has run. */
    var activated: bool
    /** `activate`'s `showHadith`: the mode of the next tick. */
    var showHadith: bool
    /** `activate`'s `delay`: the interval period in milliseconds. */
    var delayMs: nat
    /** `activate`'s own `let timerId`, which shadows the module-level one. */
    var timerId: nat
    /** The notifications the rotation has posted, oldest first. */
    var shown: seq<string>
    /** The configured delay in minutes, as last read. */
    ghost var minutes: nat
    /** What the lookups produced on every tick so far. */
    ghost var ticks: seq<Lookups>

    /** At most one interval is live, the one the activation created last,
        and it runs at the configured delay; the flag and the notifications
        are those of the ticks so far. */
    ghost predicate Valid()
      reads this
    {
      (liveTimers == map[] || (activated && liveTimers == map[timerId := delayMs])) &&
      (activated ==> timerId < nextHandle) &&
      (!activated ==> ticks == []) &&
      delayMs == minutes * MS_PER_MINUTE &&
      showHadith == (|ticks| % 2 == 1) &&
      shown == Replay(ticks, false)
    }

    /** Loading extension.js: `timerId` is declared without a value. */
    constructor Load()
      ensures Valid() && !activated
      ensures moduleTimerId == None && liveTimers == map[] && shown == []
    {
      moduleTimerId := None;
      liveTimers := map[];
      nextHandle := 1;
      activated := false;
      showHadith := false;
      delayMs := 0;
      timerId := 0;
      shown := [];
      minutes := 0;
      ticks := [];
    }

    /** The host's `setInterval`: a fresh handle for a new live interval. */
    method SetInterval(period: nat) returns (handle: nat)
      modifies this`liveTimers, this`nextHandle
      ensures handle == old(nextHandle) && nextHandle == handle + 1
      ensures liveTimers == old(liveTimers)[handle := period]
    {
      handle := nextHandle;
      liveTimers := liveTimers[handle := period];
      nextHandle := nextHandle + 1;
    }

    /** The host's `clearInterval`; a handle that is not live is ignored. */
    method ClearInterval(handle: nat)
      modifies this`liveTimers
      ensures liveTimers == old(liveTimers) - {handle}
    {
      liveTimers := liveTimers - {handle};
    }

    /** `activate`: reads the delay, starts in ayah mode and creates one
        interval of `configuredMinutes * 60000` milliseconds. It assigns its
        own local `timerId`, never the module-level one. */
    method Activate(configuredMinutes: nat)
      requires Valid() && !activated
      modifies this
      ensures Valid() && activated
      ensures !showHadith && shown == old(shown)
      ensures delayMs == configuredMinutes * MS_PER_MINUTE
      ensures timerId !in old(liveTimers) && liveTimers == map[timerId := delayMs]
      ensures moduleTimerId == old(moduleTimerId)
    {
      minutes := configuredMinutes;
      delayMs := configuredMinutes * MS_PER_MINUTE;
      showHadith := false;
      activated := true;
      timerId := SetInterval(delayMs);
    }

    /** One firing of the interval, `showText`: shows the text of the current
        mode and then flips the mode, whatever the lookup produced. */
    method Tick(lookups: Lookups)
      requires Valid() && timerId in liveTimers
      modifies this`showHadith, this`shown, this`ticks
      ensures Valid()
      ensures shown == old(shown) + [GetText(old(showHadith), lookups)]
      ensures showHadith == !old(showHadith)
      ensures ticks == old(ticks) + [lookups]
    {
      var text := GetText(showHadith, lookups);
      shown := shown + [text];
      showHadith := !showHadith;
      ReplayExtend(ticks, false, lookups);
      ticks := ticks + [lookups];
    }

    /** The `onDidChangeConfiguration` listener. A change that affects
        `hasanah.delay` clears the current interval and then creates one at
        the new delay, keeping the mode; any other change does nothing. */
    method OnConfigChange(affectsDelay: bool, configuredMinutes: nat)
      requires Valid() && activated
      modifies this
      ensures Valid() && activated
      ensures showHadith == old(showHadith) && shown == old(shown)
      ensures moduleTimerId == old(moduleTimerId)
      ensures !affectsDelay ==>
        liveTimers == old(liveTimers) && timerId == old(timerId) && delayMs == old(delayMs)
      ensures affectsDelay ==>
        delayMs == configuredMinutes * MS_PER_MINUTE &&
        old(timerId) !in liveTimers && timerId !in old(liveTimers) &&
        liveTimers == map[timerId := delayMs]
    {
      if affectsDelay {
        ClearInterval(timerId);
        minutes := configuredMinutes;
        delayMs := configuredMinutes * MS_PER_MINUTE;
        timerId := SetInterval(delayMs);
      }
    }

    /** `deactivate`: clears the interval named by the module-level `timerId`
        if it is set. Only this method assigns that variable, so it is never
        set, and the activation's interval keeps running. */
    method Deactivate()
      requires Valid()
      modifies this`moduleTimerId, this`liveTimers
      ensures Valid() && moduleTimerId == None
      ensures old(moduleTimerId) == None ==> liveTimers == old(liveTimers)
      ensures old(moduleTimerId).Some? ==> liveTimers == old(liveTimers) - {old(moduleTimerId).value}
    {
      if moduleTimerId.Some? {
        ClearInterval(moduleTimerId.value);
        moduleTimerId := None;
      }
    }
  }

  /** A session: activation at one minute, a tick, a change of the delay to
      five minutes, another tick, deactivation, and a tick after it. */
  method Session(first: Lookups, second: Lookups, third: Lookups)
  {
    var ext := new Extension.Load();
    ext.Activate(1);
    assert ext.liveTimers == map[ext.timerId := 60000];
    ext.Tick(first);
    assert ext.shown == [GetText(false, first)];
    var before := ext.timerId;
    ext.OnConfigChange(false, 7);
    assert ext.liveTimers == map[before := 60000];
    ext.OnConfigChange(true, 5);
    assert before !in ext.liveTimers && ext.liveTimers == map[ext.timerId := 300000];
    assert ext.showHadith;
    ext.Tick(second);
    assert ext.shown == [GetText(false, first), GetText(true, second)];
    ext.Deactivate();
    assert ext.liveTimers == map[ext.timerId := 300000];
    ext.Tick(third);
    assert ext.shown[2] == GetText(false, third);
  }
}
