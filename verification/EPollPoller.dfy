/** The objects of XNet/Channel.h, XNet/Channel.cpp and XNet/EPollPoller.cpp, proved against
    PollerModel. The event loop's updateChannel and removeChannel only forward to its poller, so a
    channel refers to the poller directly. */
module EPollPollers {
  import opened PollerModel

  datatype Callback = OnClose | OnError | OnRead | OnWrite

  class Channel {
    const fd: int
    const poller: EPollPoller
    var events: set<Event>    // m_events
    var revents: set<Event>   // m_revents
    var index: Index          // m_index
    var callbacks: set<Callback>   // which of m_readCallback and its siblings are set

    constructor (poller: EPollPoller, fd: int)
      modifies poller`all
      ensures this.poller == poller && View() == Chan(fd, NONE_EVENT, New)
      ensures revents == {} && callbacks == {}
      ensures poller.all == old(poller.all) + {this}
      ensures old(poller.Agrees()) ==> poller.Agrees()
    {
      this.poller := poller;
      this.fd := fd;
      events := NONE_EVENT;
      revents := {};
      index := New;
      callbacks := {};
      new;
      ghost var was := poller.World();
      poller.all := poller.all + {this};
      if old(poller.Agrees()) {
        assert poller.World() == was.(chans := was.chans[this := View()]);
        NewChannelAgrees(was, this, View());
      }
    }

    ghost function View(): Chan
      reads this
    {
      Chan(fd, events, index)
    }

    predicate IsNoneEvent()
      reads this`events
    {
      events == NONE_EVENT
    }

    predicate IsWriting()
      reads this`events
    {
      Out in events
    }

    /** This channel and its poller are what a call makes of them. */
    ghost predicate Did(before: Registry<Channel>, chan: Chan, req: Request<Channel>, ok: bool)
      reads this, poller
    {
      Outcome(poller.View(), View(), ok) == Call(before, this, chan, req)
    }

    method EnableReading() returns (ok: bool)
      modifies this, poller
      ensures Did(old(poller.View()), old(View()), Request.EnableReading(this), ok)
      ensures poller.all == old(poller.all)
      ensures this in poller.all && old(poller.Agrees()) ==> poller.Agrees()
    {
      ghost var before := poller.World();
      events := events + READ_EVENT;
      ok := Update();
      if this in poller.all {
        StepAgrees(before, Request.EnableReading(this), ok);
      }
    }

    method DisableReading() returns (ok: bool)
      modifies this, poller
      ensures Did(old(poller.View()), old(View()), Request.DisableReading(this), ok)
      ensures poller.all == old(poller.all)
      ensures this in poller.all && old(poller.Agrees()) ==> poller.Agrees()
    {
      ghost var before := poller.World();
      events := events - READ_EVENT;
      ok := Update();
      if this in poller.all {
        StepAgrees(before, Request.DisableReading(this), ok);
      }
    }

    method EnableWriting() returns (ok: bool)
      modifies this, poller
      ensures Did(old(poller.View()), old(View()), Request.EnableWriting(this), ok)
      ensures poller.all == old(poller.all)
      ensures this in poller.all && old(poller.Agrees()) ==> poller.Agrees()
    {
      ghost var before := poller.World();
      events := events + WRITE_EVENT;
      ok := Update();
      if this in poller.all {
        StepAgrees(before, Request.EnableWriting(this), ok);
      }
    }

    method DisableWriting() returns (ok: bool)
      modifies this, poller
      ensures Did(old(poller.View()), old(View()), Request.DisableWriting(this), ok)
      ensures poller.all == old(poller.all)
      ensures this in poller.all && old(poller.Agrees()) ==> poller.Agrees()
    {
      ghost var before := poller.World();
      events := events - WRITE_EVENT;
      ok := Update();
      if this in poller.all {
        StepAgrees(before, Request.DisableWriting(this), ok);
      }
    }

    method DisableAll() returns (ok: bool)
      modifies this, poller
      ensures Did(old(poller.View()), old(View()), Request.DisableAll(this), ok)
      ensures poller.all == old(poller.all)
      ensures this in poller.all && old(poller.Agrees()) ==> poller.Agrees()
    {
      ghost var before := poller.World();
      events := NONE_EVENT;
      ok := Update();
      if this in poller.all {
        StepAgrees(before, Request.DisableAll(this), ok);
      }
    }

    method Remove()
      modifies this, poller
      ensures exists ok :: Did(old(poller.View()), old(View()), Request.RemoveChannel(this), ok)
      ensures poller.all == old(poller.all)
      ensures this in poller.all && old(poller.Agrees()) ==> poller.Agrees()
    {
      ghost var before := poller.World();
      ghost var ok := Call(poller.View(), this, View(), Request.RemoveChannel(this)).ok;
      if IsNoneEvent() {
        poller.RemoveChannel(this);
      }
      if this in poller.all {
        StepAgrees(before, Request.RemoveChannel(this), ok);
      }
      assert Did(old(poller.View()), old(View()), Request.RemoveChannel(this), ok);
    }

    /** A call of this interface is a step of PollerModel's world, so PollerModel.AgreementAlways
        speaks about every run of these objects. */
    lemma StepAgrees(before: World<Channel>, req: Request<Channel>, ok: bool)
      requires this in poller.all && before.chans.Keys == poller.all
      requires req.id == this && Did(before.registry, before.chans[this], req, ok)
      requires forall d :: d in poller.all && d != this ==> d.View() == before.chans[d]
      ensures poller.World() == Serve(before, req)
      ensures Agreement(before) ==> poller.Agrees()
    {
      assert poller.World() == Serve(before, req);
      if Agreement(before) {
        ServeKeepsAgreement(before, req);
      }
    }

    method Update() returns (ok: bool)
      modifies this, poller
      ensures Outcome(poller.View(), View(), ok) == PollerModel.Update(old(poller.View()), this, old(View()))
      ensures poller.all == old(poller.all)
    {
      ok := poller.UpdateChannel(this);
    }

    /** setReadCallback and its siblings. */
    method SetCallback(c: Callback)
      modifies this`callbacks
      ensures callbacks == old(callbacks) + {c}
    {
      callbacks := callbacks + {c};
    }

    /** set_revents and add_revents write m_events in the source; m_revents is meant, which handleEvent
        reads. PollerModel.LiteralSetReventsCorrectIff and LiteralAddReventsCorrectIff state the
        difference. */
    method SetRevents(revt: set<Event>)
      modifies this`revents
      ensures revents == revt
    {
      revents := revt;
    }

    /** handleEvent: the callbacks it invokes, in order. Each callback is invoked whatever the
        earlier ones did, since m_revents is only written by the poller. */
    method HandleEvent() returns (calls: seq<Callback>)
      ensures OnClose in calls <==> OnClose in callbacks && Hup in revents && In !in revents
      ensures OnError in calls <==> OnError in callbacks && (Err in revents || Nval in revents)
      ensures OnRead in calls <==> OnRead in callbacks && (In in revents || Pri in revents || RdHup in revents)
      ensures OnWrite in calls <==> OnWrite in callbacks && Out in revents
      ensures Sequence(calls)
    {
      calls := [];
      if Hup in revents && In !in revents {
        calls := Invoke(calls, OnClose);
      }
      if Err in revents || Nval in revents {
        calls := Invoke(calls, OnError);
      }
      if In in revents || Pri in revents || RdHup in revents {
        calls := Invoke(calls, OnRead);
      }
      if Out in revents {
        calls := Invoke(calls, OnWrite);
      }
    }

    /** A callback that is not set is passed over. */
    method Invoke(calls: seq<Callback>, c: Callback) returns (r: seq<Callback>)
      requires Sequence(calls) && forall d :: d in calls ==> Precedes(d, c)
      ensures Sequence(r) && forall d :: d in r <==> d in calls || (d == c && c in callbacks)
    {
      r := if c in callbacks then calls + [c] else calls;
    }

    static predicate Sequence(calls: seq<Callback>) {
      forall i, j :: 0 <= i < j < |calls| ==> Precedes(calls[i], calls[j])
    }

    /** The order of handleEvent's tests: close, error, read, write. */
    static predicate Precedes(a: Callback, b: Callback) {
      a != b && b != OnClose && a != OnWrite && !(a == OnRead && b == OnError)
    }

    /** So handleEvent's calls are, in this order, at most one each of close, error, read and write. */
    static lemma CallbacksInOrder(calls: seq<Callback>)
      requires Sequence(calls)
      ensures forall i, j :: 0 <= i < |calls| && 0 <= j < |calls| ==>
                && (calls[i] == OnClose && (calls[j] == OnError || calls[j] == OnRead || calls[j] == OnWrite) ==> i < j)
                && (calls[i] == OnError && (calls[j] == OnRead || calls[j] == OnWrite) ==> i < j)
                && (calls[i] == OnRead && calls[j] == OnWrite ==> i < j)
                && (calls[i] == calls[j] ==> i == j)
    {
    }
  }

  /** One entry of the array epoll_wait fills: the registered pointer and the reported events. */
  datatype Report = Report(channel: Channel, events: set<Event>)

  const INIT_EVENT_LIST_SIZE: nat := 16

  class EPollPoller {
    var channels: map<int, Channel>           // m_channels
    var kernel: map<int, Interest<Channel>>   // the interest set behind m_epollfd
    var eventListSize: nat                    // m_events.size()
    ghost var refused: nat                    // epoll_ctl calls the kernel refused
    ghost var all: set<Channel>               // every channel made over this poller

    constructor ()
      ensures View() == Registry(map[], map[], 0) && eventListSize == 16
      ensures all == {} && Agrees()
    {
      channels := map[];
      kernel := map[];
      eventListSize := INIT_EVENT_LIST_SIZE;
      refused := 0;
      all := {};
    }

    ghost function View(): Registry<Channel>
      reads this
    {
      Registry(channels, kernel, refused)
    }

    /** PollerModel's world made of these objects. */
    ghost function World(): World<Channel>
      reads this, all
    {
      PollerModel.World.World(View(), map c | c in all :: c.View())
    }

    ghost predicate Agrees()
      reads this, all
    {
      Agreement(World())
    }

    method UpdateChannel(channel: Channel) returns (ok: bool)
      modifies this`channels, this`kernel, this`refused, channel
      ensures Outcome(View(), channel.View(), ok) == PollerModel.Update(old(View()), channel, old(channel.View()))
      ensures channel.revents == old(channel.revents)
    {
      var index := channel.index;
      if index == New || index == Deleted {
        var fd := channel.fd;
        if index == New {
          if fd in channels {
            return false;
          }
          channels := channels[fd := channel];
        } else {
          if fd !in channels {
            return false;
          }
          if channels[fd] != channel {
            return false;
          }
        }
        channel.index := Added;
        ok := UpdateKernel(CtlAdd, channel);
      } else {
        var fd := channel.fd;
        if fd !in channels || channels[fd] != channel || index != Added {
          return false;
        }
        if channel.IsNoneEvent() {
          ok := UpdateKernel(CtlDel, channel);
          if ok {
            channel.index := Deleted;
          }
        } else {
          ok := UpdateKernel(CtlMod, channel);
        }
      }
    }

    method RemoveChannel(channel: Channel)
      modifies this`channels, this`kernel, this`refused, channel
      ensures var o := PollerModel.Remove(old(View()), channel, old(channel.View()));
              View() == o.registry && channel.View() == o.chan
      ensures channel.revents == old(channel.revents)
    {
      var fd := channel.fd;
      if fd !in channels || channels[fd] != channel || !channel.IsNoneEvent() {
        return;
      }
      var index := channel.index;
      if index != Added && index != Deleted {
        return;
      }
      channels := channels - {fd};
      if index == Added {
        var _ := UpdateKernel(CtlDel, channel);
      }
      channel.index := New;
    }

    predicate HasChannel(channel: Channel)
      reads this`channels
    {
      channel.fd in channels && channels[channel.fd] == channel
    }

    /** EPollPoller::update: epoll_ctl on the channel's descriptor. */
    method UpdateKernel(operation: CtlOp, channel: Channel) returns (ok: bool)
      modifies this`kernel, this`refused
      ensures View() == EpollCtl(old(View()), operation, channel, channel.View())
      ensures ok == CtlAccepts(old(kernel), operation, channel.fd)
    {
      var fd := channel.fd;
      ok := CtlAccepts(kernel, operation, fd);
      if !ok {
        refused := refused + 1;
      } else if operation.CtlDel? {
        kernel := kernel - {fd};
      } else {
        kernel := kernel[fd := Interest(channel.events, channel)];
      }
    }

    /** fillActiveChannels: stops at the first reported pointer that is not a registered channel. */
    method FillActiveChannels(reports: seq<Report>) returns (active: seq<Channel>)
      modifies (set r | r in reports :: r.channel)`revents
      ensures KnownPrefix(reports, |active|) && Names(active, reports)
      ensures forall i: nat :: LastReport(reports, |active|, i) ==> reports[i].channel.revents == reports[i].events
    {
      active := [];
      var i := 0;
      while i < |reports|
        invariant 0 <= i == |active| <= |reports| && Names(active, reports)
        invariant forall j: nat :: j < i ==> HasChannel(reports[j].channel)
        invariant forall j: nat :: LastReport(reports, i, j) ==> reports[j].channel.revents == reports[j].events
      {
        var channel := reports[i].channel;
        if !HasChannel(channel) {
          return;
        }
        channel.SetRevents(reports[i].events);
        active := active + [channel];
        forall j: nat | LastReport(reports, i + 1, j)
          ensures reports[j].channel.revents == reports[j].events
        {
          assert j < i ==> LastReport(reports, i, j) && reports[j].channel != channel;
        }
        i := i + 1;
      }
    }

    /** k is the length of the longest prefix of reports about registered channels. */
    ghost predicate KnownPrefix(reports: seq<Report>, k: nat)
      reads this`channels
    {
      && k <= |reports|
      && (forall i :: 0 <= i < k ==> HasChannel(reports[i].channel))
      && (k < |reports| ==> !HasChannel(reports[k].channel))
    }

    /** The kernel reports only pointers from its interest set. */
    ghost predicate OnlyWatched(reports: seq<Report>)
      reads this`kernel
    {
      forall i :: 0 <= i < |reports| ==> Watched(this, reports[i].channel)
    }

    ghost predicate Names(active: seq<Channel>, reports: seq<Report>) {
      |active| <= |reports| && forall i :: 0 <= i < |active| ==> active[i] == reports[i].channel
    }

    /** Report i is the last one about its channel among the first k. */
    ghost predicate LastReport(reports: seq<Report>, k: nat, i: nat) {
      i < k <= |reports| && forall j :: i < j < k ==> reports[j].channel != reports[i].channel
    }

    /** poll, given what epoll_wait returned: never more reports than the list has room for. The
        list doubles when it was filled. */
    method Poll(reports: seq<Report>) returns (active: seq<Channel>)
      requires |reports| <= eventListSize
      modifies this`eventListSize, (set r | r in reports :: r.channel)`revents
      ensures View() == old(View())
      ensures eventListSize == if 0 < |reports| == old(eventListSize) then 2 * old(eventListSize) else old(eventListSize)
      ensures KnownPrefix(reports, |active|) && Names(active, reports)
      ensures forall i: nat :: LastReport(reports, |active|, i) ==> reports[i].channel.revents == reports[i].events
      ensures forall i :: 0 <= i < |active| ==> active[i].fd in channels && channels[active[i].fd] == active[i]
      ensures |active| < |reports| ==>
                var c := reports[|active|].channel; c.fd !in channels || channels[c.fd] != c
      ensures old(Agrees() && OnlyWatched(reports)) ==> |active| == |reports|
    {
      ghost var faithful := Agrees() && OnlyWatched(reports);
      if faithful {
        AllRegistered(this, reports);
      }
      active := [];
      if |reports| > 0 {
        active := FillActiveChannels(reports);
        if |reports| == eventListSize {
          eventListSize := eventListSize * 2;
        }
      }
    }
  }

  ghost predicate Watched(p: EPollPoller, c: Channel)
    reads p`kernel
  {
    exists fd :: fd in p.kernel && p.kernel[fd].data == c
  }

  lemma WatchedIsRegistered(p: EPollPoller, c: Channel)
    requires p.Agrees() && Watched(p, c)
    ensures p.HasChannel(c)
  {
    var fd :| fd in p.kernel && p.kernel[fd].data == c;
    var w := p.World();
    var owner := p.channels[fd];
    assert ChannelAgrees(w.registry, owner, w.chans[owner]);
  }

  lemma AllRegistered(p: EPollPoller, reports: seq<Report>)
    requires p.Agrees() && p.OnlyWatched(reports)
    ensures forall i :: 0 <= i < |reports| ==> p.HasChannel(reports[i].channel)
  {
    forall i | 0 <= i < |reports|
      ensures p.HasChannel(reports[i].channel)
    {
      WatchedIsRegistered(p, reports[i].channel);
    }
  }

  /** While the three views agree, every report of the kernel, whose pointers come from its
      interest set, reaches the list of active channels. */
  lemma NoReportIsLost(p: EPollPoller, reports: seq<Report>, k: nat)
    requires p.Agrees() && p.OnlyWatched(reports)
    requires p.KnownPrefix(reports, k)
    ensures k == |reports|
  {
    AllRegistered(p, reports);
  }
}
