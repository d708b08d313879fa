/**
 * The system volume: the poll loop that stores and broadcasts a changed
 * reading (vlc_my_web_interface.py:177, 181-190) and the route that sets the
 * volume from a request argument (vlc_my_web_interface.py:192-218).
 */
module SystemVolume {
  import opened Wrappers
  import opened AmixerOutput
  import opened Broadcasting

  /** The value `fetch_system_volume` returns, `None` included. */
  function Returned(reading: VolumeReading): (r: Option<int>)
    ensures r.Some? <==> reading.Percent?
    ensures r.Some? ==> r.value == reading.value
  {
    if reading.Percent? then Some(reading.value) else None
  }

  /** One poll: the stored volume afterwards, and the volume broadcast if any. */
  function PollVolume(current: Option<int>, fetched: Option<int>): (r: (Option<int>, Option<int>))
    // a broadcast happens exactly when a volume was read and it differs
    ensures r.1.Some? <==> fetched.Some? && fetched != current
    ensures r.1.Some? ==> r.1 == fetched
    // after a successful read the stored volume is the one read
    ensures fetched.Some? ==> r.0 == fetched
    ensures fetched.None? ==> r.0 == current
  {
    if fetched.Some? && fetched != current then (fetched, fetched) else (current, None)
  }

  /** Reading the same volume twice in a row broadcasts it at most once. */
  lemma RepeatedReadingSilent(current: Option<int>, v: int)
    ensures PollVolume(PollVolume(current, Some(v)).0, Some(v)).1 == None
  {
  }

  /** The volume a request asks for: its `volume` argument through `int()`,
      0 when the argument is absent; `None` when `int()` fails. */
  function RequestedVolume(arg: Option<string>): (r: Option<int>)
    ensures arg.None? ==> r == Some(0)
    ensures arg.Some? ==> r == ParseInt(arg.value)
  {
    if arg.None? then Some(0) else ParseInt(arg.value)
  }

  /** What the volume-setting route answers. */
  datatype SetReply =
    | Success(volume: int) // the volume was set and broadcast
    | Failed               // an error reply: `int()` or the mixer call failed
    | NoReply              // out of range: the route returns nothing

  /** The route's answer, given the argument and whether the mixer call
      succeeds. */
  function SetVolumeReply(arg: Option<string>, mixerOk: bool): (r: SetReply)
    ensures r.Success? <==>
      RequestedVolume(arg).Some? && 0 <= RequestedVolume(arg).value <= 100 && mixerOk
    ensures r.Success? ==> r.volume == RequestedVolume(arg).value && 0 <= r.volume <= 100
    ensures r.NoReply? <==>
      RequestedVolume(arg).Some? && !(0 <= RequestedVolume(arg).value <= 100)
  {
    match RequestedVolume(arg)
    case None => Failed
    case Some(v) =>
      if 0 <= v <= 100 then (if mixerOk then Success(v) else Failed) else NoReply
  }

  /** Any in-range volume, written as `str()` writes it, is set when the mixer
      call succeeds. */
  lemma SetInRange(v: int)
    requires 0 <= v <= 100
    ensures SetVolumeReply(Some(IntText(v)), true) == Success(v)
  {
    SmallPrintable(v);
    ParseIntText(v);
  }

  /** A request without an argument sets the volume to 0. */
  lemma MissingArgumentMutes()
    ensures SetVolumeReply(None, true) == Success(0)
  {
  }

  /** A volume set through the route is not broadcast a second time when the
      next poll reads it back. */
  lemma NoEchoAfterSet(arg: Option<string>)
    requires SetVolumeReply(arg, true).Success?
    ensures var v := SetVolumeReply(arg, true).volume;
      PollVolume(Some(v), Returned(Percent(v))) == (Some(v), None)
  {
  }

  /** The stored system volume, the volume poll thread, and the registry the
      volume is broadcast to. */
  class VolumeMonitor {
    var current: Option<int>
    // false once a read has raised, which ends the poll thread
    var polling: bool
    const hub: Hub<int>

    ghost predicate Valid()
      reads this, hub
    {
      hub.Valid()
    }

    /** The module-level first read of the volume. */
    constructor (initial: Option<int>, hub: Hub<int>)
      requires hub.Valid()
      ensures Valid() && current == initial && polling && this.hub == hub
    {
      current := initial;
      polling := true;
      this.hub := hub;
    }

    /** One pass of the volume poll loop. An IndexError from the read escapes
        the loop and ends the thread; later passes do nothing. */
    method PollStep(reading: VolumeReading, broken: set<SubscriberId>)
      requires Valid()
      modifies this, hub
      ensures Valid()
      ensures polling == (old(polling) && !reading.IndexErrorRaised?)
      ensures !old(polling) ==> current == old(current) && hub.queues == old(hub.queues)
      ensures old(polling) ==>
        var (stored, sent) := PollVolume(old(current), Returned(reading));
        current == stored
        && hub.queues == if sent.Some? then Delivered(old(hub.queues), sent.value, broken)
                         else old(hub.queues)
    {
      if !polling {
        return;
      }
      if reading.IndexErrorRaised? {
        polling := false;
        return;
      }
      var volume := Returned(reading);
      if volume.Some? && volume != current {
        current := volume;
        hub.Broadcast(volume.value, broken);
      }
    }

    /** The volume-setting route; `mixerOk` says whether the mixer call
        succeeds. */
    method SetVolume(arg: Option<string>, mixerOk: bool, broken: set<SubscriberId>) returns (reply: SetReply)
      requires Valid()
      modifies this, hub
      ensures Valid() && polling == old(polling)
      ensures reply == SetVolumeReply(arg, mixerOk)
      ensures current == if reply.Success? then Some(reply.volume) else old(current)
      ensures hub.queues == if reply.Success? then Delivered(old(hub.queues), reply.volume, broken)
                            else old(hub.queues)
    {
      var requested := RequestedVolume(arg);
      if requested.None? {
        return Failed;
      }
      var volume := requested.value;
      if 0 <= volume <= 100 {
        if !mixerOk {
          return Failed;
        }
        current := Some(volume);
        hub.Broadcast(volume, broken);
        return Success(volume);
      }
      return NoReply;
    }
  }
}
