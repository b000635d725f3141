/**
 * The macOS watcher (`DarwinWatcher`, watcher/fsevents_darwin.go): every
 * batch of raw FSEvents becomes one batch of watcher events. An event is
 * classified by its flag word, and its directory bit comes from `os.Stat`
 * of its path; an event whose path cannot be stat'ed is dropped.
 *
 * `os.Stat` is a parameter (None when it fails, else whether the path is a
 * directory); the output channel is the sequence of batches pushed to it.
 */
module FsEventsWatcher {
  import opened Bytes
  import opened Wrappers
  import opened Watcher
  import Seqs

  /** An `fsevents.Event`: a path and the flag word describing the change. */
  datatype RawEvent = RawEvent(path: Bytes, flags: EventFlags)

  /** `os.Stat(path)`: None on error, else whether the path is a directory. */
  type Stat = Bytes -> Option<bool>

  /** `checkFlag`: every bit of needle is set in flags. */
  predicate CheckFlag(flags: EventFlags, needle: EventFlags)
  {
    flags & needle == needle
  }

  /** The empty needle is found in every flag word. */
  lemma CheckFlagZero(flags: EventFlags)
    ensures CheckFlag(flags, 0)
  {
  }

  /**
   * The type an event's flags give it: Delete when ItemRemoved is set (it is
   * tested first), Add when ItemCreated is set, and otherwise the zero value
   * of the type, which is Add as well.
   */
  function Classify(flags: EventFlags): (t: EventType)
    ensures t == EventTypeAdd || t == EventTypeDelete
  {
    if CheckFlag(flags, ItemRemoved) then EventTypeDelete
    else if CheckFlag(flags, ItemCreated) then EventTypeAdd
    else EventTypeAdd
  }

  /** An event is a Delete exactly when its ItemRemoved bit is set, whatever else is. */
  lemma ClassifyDelete(flags: EventFlags)
    ensures Classify(flags) == EventTypeDelete <==> flags & ItemRemoved != 0
    ensures CheckFlag(flags, ItemRemoved | ItemCreated) ==> Classify(flags) == EventTypeDelete
    ensures Classify(0) == EventTypeAdd
  {
  }

  /** What one raw event becomes: nothing when its path cannot be stat'ed. */
  function TranslateOne(e: RawEvent, stat: Stat): seq<Event>
  {
    match stat(e.path)
    case None => []
    case Some(isDir) => [Event(e.path, Classify(e.flags), isDir)]
  }

  /**
   * What a batch of raw events becomes, event by event: no more events than
   * came in, each an Add or a Delete whose kind is what the stat of its path
   * says.
   */
  function Translate(events: seq<RawEvent>, stat: Stat): (t: seq<Event>)
    ensures |t| <= |events|
    ensures forall i :: 0 <= i < |t| ==>
      stat(t[i].path) == Some(t[i].dir) && (t[i].eventType == EventTypeAdd || t[i].eventType == EventTypeDelete)
  {
    if |events| == 0 then [] else TranslateOne(events[0], stat) + Translate(events[1..], stat)
  }

  /** The raw events whose path can be stat'ed, in their order. */
  function Survivors(events: seq<RawEvent>, stat: Stat): (s: seq<RawEvent>)
    ensures forall e :: e in s ==> e in events && stat(e.path).Some?
    ensures forall e :: e in events && stat(e.path).Some? ==> e in s
  {
    if |events| == 0 then []
    else if stat(events[0].path).Some? then [events[0]] + Survivors(events[1..], stat)
    else Survivors(events[1..], stat)
  }

  /** The events a batch becomes are its survivors, in order, each with its path, its class and its stat'ed kind. */
  lemma {:induction false} TranslateIsSurvivors(events: seq<RawEvent>, stat: Stat)
    ensures var s := Survivors(events, stat);
      var t := Translate(events, stat);
      |t| == |s| && forall i :: 0 <= i < |t| ==>
        t[i] == Event(s[i].path, Classify(s[i].flags), stat(s[i].path).value)
  {
    if |events| > 0 {
      TranslateIsSurvivors(events[1..], stat);
      var s', t' := Survivors(events[1..], stat), Translate(events[1..], stat);
      var e := events[0];
      if stat(e.path).Some? {
        var s, t := [e] + s', [Event(e.path, Classify(e.flags), stat(e.path).value)] + t';
        assert Survivors(events, stat) == s && Translate(events, stat) == t;
        forall i | 0 <= i < |t|
          ensures t[i] == Event(s[i].path, Classify(s[i].flags), stat(s[i].path).value)
        {
          if i > 0 {
            assert t[i] == t'[i - 1] && s[i] == s'[i - 1];
          }
        }
      } else {
        assert Survivors(events, stat) == s' && Translate(events, stat) == [] + t';
        assert [] + t' == t';
      }
    }
  }

  /** No more events come out than go in. */
  lemma {:induction false} TranslateLength(events: seq<RawEvent>, stat: Stat)
    ensures |Translate(events, stat)| <= |events|
  {
    if |events| > 0 {
      TranslateLength(events[1..], stat);
    }
  }

  /** Translating two batches one after the other is translating their concatenation. */
  lemma {:induction false} TranslateAppend(a: seq<RawEvent>, b: seq<RawEvent>, stat: Stat)
    ensures Translate(a + b, stat) == Translate(a, stat) + Translate(b, stat)
  {
    if |a| == 0 {
      assert a + b == b;
    } else {
      assert (a + b)[1..] == a[1..] + b;
      TranslateAppend(a[1..], b, stat);
      Seqs.AppendAssoc(TranslateOne(a[0], stat), Translate(a[1..], stat), Translate(b, stat));
    }
  }

  /** A batch of one event becomes what that event becomes. */
  lemma TranslateSingle(e: RawEvent, stat: Stat)
    ensures Translate([e], stat) == TranslateOne(e, stat)
  {
    assert [e][1..] == [];
  }

  /** A path that is gone by the time it is stat'ed (a removed file, say) produces no event. */
  lemma GoneIsDropped(e: RawEvent, stat: Stat)
    requires stat(e.path).None?
    ensures Translate([e], stat) == []
  {
    TranslateSingle(e, stat);
  }

  /** The directory bit of an event is what the stat says, not what the flags say. */
  lemma DirFromStat(events: seq<RawEvent>, stat: Stat, i: nat)
    requires i < |Translate(events, stat)|
    ensures var t := Translate(events, stat)[i];
      stat(t.path) == Some(t.dir)
  {
    TranslateIsSurvivors(events, stat);
    var s := Survivors(events, stat);
    assert s[i] in s;
  }

  datatype StopStep = StreamStop | CloseChannel

  const StopOrder: seq<StopStep> := [StreamStop, CloseChannel]

  class DarwinWatcher {
    /** The watched root, the only path given to the FSEvents stream. */
    const root: Bytes
    /** The batches pushed to the output channel, oldest first. */
    var stream: seq<seq<Event>>
    /** Whether the once-guard of `Stop` has fired. */
    var stopped: bool
    var stopSteps: seq<StopStep>

    ghost predicate Valid()
      reads this
    {
      stopSteps == if stopped then StopOrder else []
    }

    /** `New(root)`: nothing pushed, not stopped. */
    constructor (root: Bytes)
      ensures Valid() && this.root == root && stream == [] && !stopped
    {
      this.root := root;
      stream := [];
      stopped := false;
      stopSteps := [];
    }

    /** `handleEvents`: translates the batch and pushes exactly one batch, empty or not. */
    method HandleEvents(events: seq<RawEvent>, stat: Stat)
      modifies this`stream
      ensures stream == old(stream) + [Translate(events, stat)]
    {
      var translated: seq<Event> := [];
      for i := 0 to |events|
        invariant translated == Translate(events[..i], stat)
        invariant stream == old(stream)
      {
        var e := events[i];
        assert events[..i + 1] == events[..i] + [e];
        TranslateAppend(events[..i], [e], stat);
        TranslateSingle(e, stat);
        var t := Event(e.path, EventTypeAdd, false);
        if CheckFlag(e.flags, ItemRemoved) {
          t := t.(eventType := EventTypeDelete);
        } else if CheckFlag(e.flags, ItemCreated) {
          t := t.(eventType := EventTypeAdd);
        }
        var st := stat(e.path);
        if st.None? {
          continue;
        }
        t := t.(dir := st.value);
        translated := translated + [t];
      }
      assert events[..|events|] == events;
      stream := stream + [translated];
    }

    /** `Stop`: stops the stream and closes the channel, once; later calls do nothing. */
    method Stop()
      requires Valid()
      modifies this`stopped, this`stopSteps
      ensures Valid() && stopped && stopSteps == StopOrder
      ensures old(stopped) ==> stopSteps == old(stopSteps)
    {
      if !stopped {
        stopped := true;
        stopSteps := stopSteps + [StreamStop];
        stopSteps := stopSteps + [CloseChannel];
      }
    }
  }
}
