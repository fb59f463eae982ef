/** The three-way agreement between channels, the poller's map and the kernel's interest set
    (XNet/Channel.cpp, XNet/EPollPoller.cpp), as functions on values. A channel is named by an
    Id of any type; the classes in EPollPoller.dfy use the object itself. */
module PollerModel {
  datatype Event = In | Pri | Out | Err | Hup | RdHup | Nval

  const NONE_EVENT: set<Event> := {}
  const READ_EVENT: set<Event> := {In, Pri}
  const WRITE_EVENT: set<Event> := {Out}

  /** kNew, kAdded and kDeleted. */
  datatype Index = New | Added | Deleted

  datatype Chan = Chan(fd: int, events: set<Event>, index: Index)

  datatype CtlOp = CtlAdd | CtlMod | CtlDel

  /** What the kernel keeps for one descriptor: the mask and the registered pointer. */
  datatype Interest<Id> = Interest(mask: set<Event>, data: Id)

  /** The poller's map, the kernel's interest set, and how many epoll_ctl calls the kernel has
      refused so far. */
  datatype Registry<Id> = Registry(channels: map<int, Id>, kernel: map<int, Interest<Id>>, refused: nat)

  /** A registry and a channel after a call, and the call's result. */
  datatype Outcome<Id> = Outcome(registry: Registry<Id>, chan: Chan, ok: bool)

  /** epoll_ctl adds only an absent descriptor and changes or deletes only a present one. */
  predicate CtlAccepts<Id>(kernel: map<int, Interest<Id>>, op: CtlOp, fd: int) {
    if op.CtlAdd? then fd !in kernel else fd in kernel
  }

  function EpollCtl<Id>(r: Registry<Id>, op: CtlOp, id: Id, chan: Chan): Registry<Id> {
    if !CtlAccepts(r.kernel, op, chan.fd) then
      r.(refused := r.refused + 1)
    else if op.CtlDel? then
      r.(kernel := r.kernel - {chan.fd})
    else
      r.(kernel := r.kernel[chan.fd := Interest(chan.events, id)])
  }

  /** EPollPoller::updateChannel. Its guard reads `index==kNew || kDeleted`, which always holds; the
      intended test is index==kNew || index==kDeleted, as the else branch requires. */
  function Update<Id(==)>(r: Registry<Id>, id: Id, chan: Chan): (o: Outcome<Id>)
    ensures o.chan.fd == chan.fd && o.chan.events == chan.events
  {
    var fd := chan.fd;
    if chan.index.New? then
      if fd in r.channels then Outcome(r, chan, false)
      else Add(r.(channels := r.channels[fd := id]), id, chan)
    else if chan.index.Deleted? then
      if fd !in r.channels || r.channels[fd] != id then Outcome(r, chan, false)
      else Add(r, id, chan)
    else if fd !in r.channels || r.channels[fd] != id then
      Outcome(r, chan, false)
    else if chan.events == NONE_EVENT then
      var ok := CtlAccepts(r.kernel, CtlDel, fd);
      Outcome(EpollCtl(r, CtlDel, id, chan), if ok then chan.(index := Deleted) else chan, ok)
    else
      Outcome(EpollCtl(r, CtlMod, id, chan), chan, CtlAccepts(r.kernel, CtlMod, fd))
  }

  /** set_index(kAdded), then update(XEPOLL_CTL_ADD). */
  function Add<Id>(r: Registry<Id>, id: Id, chan: Chan): Outcome<Id> {
    Outcome(EpollCtl(r, CtlAdd, id, chan), chan.(index := Added), CtlAccepts(r.kernel, CtlAdd, chan.fd))
  }

  /** The tests at the head of EPollPoller::removeChannel. */
  predicate Removable<Id(==)>(r: Registry<Id>, id: Id, chan: Chan) {
    chan.fd in r.channels && r.channels[chan.fd] == id && chan.events == NONE_EVENT && !chan.index.New?
  }

  /** EPollPoller::removeChannel. Its last line sets kAdded; kNew is meant, since the map entry has
      just been erased. */
  function Remove<Id(==)>(r: Registry<Id>, id: Id, chan: Chan): (o: Outcome<Id>)
    ensures o.chan.fd == chan.fd && o.chan.events == chan.events
  {
    if !Removable(r, id, chan) then Outcome(r, chan, false)
    else
      var erased := r.(channels := r.channels - {chan.fd});
      Outcome(if chan.index.Added? then EpollCtl(erased, CtlDel, id, chan) else erased, chan.(index := New), true)
  }

  // ----- a world of channels over one poller -----

  datatype World<Id> = World(registry: Registry<Id>, chans: map<Id, Chan>)

  datatype Request<Id> =
    | EnableReading(id: Id)
    | DisableReading(id: Id)
    | EnableWriting(id: Id)
    | DisableWriting(id: Id)
    | DisableAll(id: Id)
    | RemoveChannel(id: Id)

  /** The new mask of Channel::enableReading and its siblings. */
  function NewEvents<Id>(events: set<Event>, req: Request<Id>): set<Event> {
    match req
    case EnableReading(_) => events + READ_EVENT
    case DisableReading(_) => events - READ_EVENT
    case EnableWriting(_) => events + WRITE_EVENT
    case DisableWriting(_) => events - WRITE_EVENT
    case DisableAll(_) => NONE_EVENT
    case RemoveChannel(_) => events
  }

  /** One call of Channel's interface. Channel::remove does nothing while events are enabled. */
  function Call<Id(==)>(r: Registry<Id>, id: Id, chan: Chan, req: Request<Id>): Outcome<Id> {
    if req.RemoveChannel? then
      if chan.events != NONE_EVENT then Outcome(r, chan, false) else Remove(r, id, chan)
    else
      Update(r, id, chan.(events := NewEvents(chan.events, req)))
  }

  function Serve<Id(==)>(w: World<Id>, req: Request<Id>): World<Id> {
    if req.id !in w.chans then w
    else
      var o := Call(w.registry, req.id, w.chans[req.id], req);
      World(o.registry, w.chans[req.id := o.chan])
  }

  function ServeAll<Id(==)>(w: World<Id>, reqs: seq<Request<Id>>): World<Id>
    decreases |reqs|
  {
    if reqs == [] then w else ServeAll(Serve(w, reqs[0]), reqs[1..])
  }

  /** The map holds exactly the channels that are not kNew; the kernel watches exactly the
      descriptors of the kAdded ones, with their mask and their pointer; a kDeleted channel has no
      events; no epoll_ctl has been refused. Descriptors need not be distinct: a second channel on a
      descriptor stays kNew until the first one leaves. */
  ghost predicate Agreement<Id>(w: World<Id>) {
    && (forall id :: id in w.chans ==> ChannelAgrees(w.registry, id, w.chans[id]))
    && (forall fd :: fd in w.registry.channels ==>
          w.registry.channels[fd] in w.chans && w.chans[w.registry.channels[fd]].fd == fd)
    && (forall fd :: fd in w.registry.kernel ==> fd in w.registry.channels)
    && w.registry.refused == 0
  }

  ghost predicate ChannelAgrees<Id>(r: Registry<Id>, id: Id, c: Chan) {
    var mine := c.fd in r.channels && r.channels[c.fd] == id;
    && (mine <==> !c.index.New?)
    && (c.index.Added? ==> c.fd in r.kernel && r.kernel[c.fd] == Interest(c.events, id))
    && (c.index.Deleted? ==> c.events == NONE_EVENT && c.fd !in r.kernel)
  }

  /** Nothing registered yet; any channels, all kNew and without events. */
  ghost predicate Initial<Id>(w: World<Id>) {
    && w.registry == Registry(map[], map[], 0)
    && forall id :: id in w.chans ==> w.chans[id].index.New? && w.chans[id].events == NONE_EVENT
  }

  lemma ServeKeepsAgreement<Id>(w: World<Id>, req: Request<Id>)
    requires Agreement(w)
    ensures Agreement(Serve(w, req))
  {
    if req.id in w.chans {
      var c := w.chans[req.id];
      assert ChannelAgrees(w.registry, req.id, c);
      var o := Call(w.registry, req.id, c, req);
      CallIsLocal(w.registry, req.id, c, req);
      forall id | id in w.chans && id != req.id
        ensures ChannelAgrees(o.registry, id, w.chans[id])
      {
        assert ChannelAgrees(w.registry, id, w.chans[id]);
      }
    }
  }

  lemma NewChannelAgrees<Id>(w: World<Id>, id: Id, c: Chan)
    requires Agreement(w) && id !in w.chans && c.index.New?
    ensures Agreement(w.(chans := w.chans[id := c]))
  {
    forall other | other in w.chans
      ensures ChannelAgrees(w.registry, other, w.chans[other])
    {
    }
  }

  /** A call on an agreeing channel leaves it agreeing and touches no other descriptor; on its own
      descriptor it changes nothing that belongs to another channel. */
  lemma CallIsLocal<Id>(r: Registry<Id>, id: Id, c: Chan, req: Request<Id>)
    requires ChannelAgrees(r, id, c) && r.refused == 0
    requires forall fd :: fd in r.kernel ==> fd in r.channels
    ensures var o := Call(r, id, c, req);
      && ChannelAgrees(o.registry, id, o.chan) && o.chan.fd == c.fd && o.registry.refused == 0
      && (forall fd :: fd != c.fd ==> (fd in o.registry.channels <==> fd in r.channels))
      && (forall fd :: fd != c.fd ==> (fd in o.registry.kernel <==> fd in r.kernel))
      && (forall fd :: fd != c.fd && fd in r.channels ==> o.registry.channels[fd] == r.channels[fd])
      && (forall fd :: fd != c.fd && fd in r.kernel ==> o.registry.kernel[fd] == r.kernel[fd])
      && (c.fd in r.channels && r.channels[c.fd] != id ==> o.registry == r)
      && (c.fd in o.registry.channels ==> c.fd in r.channels || o.registry.channels[c.fd] == id)
      && (c.fd in o.registry.kernel ==> c.fd in o.registry.channels)
  {
  }

  /** In every run of enable, disable and remove calls, on any number of channels, the three views
      agree, and in particular the kernel never refuses an epoll_ctl. */
  lemma {:induction false} AgreementAlways<Id>(w: World<Id>, reqs: seq<Request<Id>>)
    requires Agreement(w)
    ensures Agreement(ServeAll(w, reqs))
    decreases |reqs|
  {
    if reqs != [] {
      ServeKeepsAgreement(w, reqs[0]);
      AgreementAlways(Serve(w, reqs[0]), reqs[1..]);
    }
  }

  lemma AgreementFromStart<Id>(w: World<Id>, reqs: seq<Request<Id>>)
    requires Initial(w)
    ensures var e := ServeAll(w, reqs);
      && e.registry.refused == 0
      && (forall fd :: fd in e.registry.kernel <==> exists id :: id in e.chans && e.chans[id].fd == fd && e.chans[id].index.Added?)
      && (forall id :: id in e.chans && e.chans[id].index.Added? ==>
            e.chans[id].fd in e.registry.kernel
            && e.registry.kernel[e.chans[id].fd] == Interest(e.chans[id].events, id))
      && (forall fd :: fd in e.registry.channels <==> exists id :: id in e.chans && e.chans[id].fd == fd && !e.chans[id].index.New?)
      && (forall id :: id in e.chans && e.chans[id].index.Deleted? ==> e.chans[id].events == NONE_EVENT)
  {
    AgreementAlways(w, reqs);
    var e := ServeAll(w, reqs);
    forall fd | fd in e.registry.channels
      ensures exists id :: id in e.chans && e.chans[id].fd == fd && !e.chans[id].index.New?
      ensures fd in e.registry.kernel ==> exists id :: id in e.chans && e.chans[id].fd == fd && e.chans[id].index.Added?
    {
      var id := e.registry.channels[fd];
      assert ChannelAgrees(e.registry, id, e.chans[id]);
    }
    forall id | id in e.chans && !e.chans[id].index.New?
      ensures e.chans[id].fd in e.registry.channels
      ensures e.chans[id].index.Added? ==> e.chans[id].fd in e.registry.kernel
    {
      assert ChannelAgrees(e.registry, id, e.chans[id]);
    }
  }

  /** A channel whose descriptor is free or its own never sees a refusal; one whose descriptor
      another channel holds always does. */
  lemma UpdateSucceedsIff<Id>(w: World<Id>, req: Request<Id>)
    requires Agreement(w) && req.id in w.chans && !req.RemoveChannel?
    ensures var c := w.chans[req.id];
      Call(w.registry, req.id, c, req).ok
      <==> c.fd !in w.registry.channels || w.registry.channels[c.fd] == req.id
  {
    assert ChannelAgrees(w.registry, req.id, w.chans[req.id]);
  }

  /** A channel removed with no events left is forgotten: no map entry and no kernel registration
      points to it any more. */
  lemma RemoveForgets<Id>(w: World<Id>, id: Id)
    requires Agreement(w) && id in w.chans && w.chans[id].events == NONE_EVENT
    ensures var e := Serve(w, RemoveChannel(id));
      && e.chans[id].index.New?
      && (forall fd :: fd in e.registry.channels ==> e.registry.channels[fd] != id)
      && (forall fd :: fd in e.registry.kernel ==> e.registry.kernel[fd].data != id)
  {
    var e := Serve(w, RemoveChannel(id));
    ServeKeepsAgreement(w, RemoveChannel(id));
    assert ChannelAgrees(w.registry, id, w.chans[id]);
    forall fd | fd in e.registry.kernel
      ensures e.registry.kernel[fd].data != id
    {
      var owner := e.registry.channels[fd];
      assert ChannelAgrees(e.registry, owner, e.chans[owner]);
    }
    assert ChannelAgrees(e.registry, id, e.chans[id]);
  }

  // ----- what the calls ask for -----

  /** The call switches event e of channel id on, or off. */
  predicate Enables<Id(==)>(req: Request<Id>, id: Id, e: Event) {
    req.id == id && ((req.EnableReading? && (e.In? || e.Pri?)) || (req.EnableWriting? && e.Out?))
  }

  predicate Disables<Id(==)>(req: Request<Id>, id: Id, e: Event) {
    req.id == id &&
    (req.DisableAll? || (req.DisableReading? && (e.In? || e.Pri?)) || (req.DisableWriting? && e.Out?))
  }

  /** Channel id asked for event e, and has not withdrawn since. */
  predicate Wanted<Id(==)>(reqs: seq<Request<Id>>, id: Id, e: Event) {
    exists i :: 0 <= i < |reqs| && Enables(reqs[i], id, e) && forall j :: i < j < |reqs| ==> !Disables(reqs[j], id, e)
  }

  predicate NeverOff<Id(==)>(reqs: seq<Request<Id>>, id: Id, e: Event) {
    forall j :: 0 <= j < |reqs| ==> !Disables(reqs[j], id, e)
  }

  lemma ServeMask<Id>(w: World<Id>, req: Request<Id>, id: Id, e: Event)
    requires id in w.chans
    ensures var n := Serve(w, req);
      id in n.chans &&
      (e in n.chans[id].events <==>
         Enables(req, id, e) || (e in w.chans[id].events && !Disables(req, id, e)))
  {
  }

  /** Whatever the poller answers, a channel's mask is what its own calls ask for: an event is in it
      exactly if the last call that concerns the event enables it. */
  lemma {:induction false} MaskFollowsCalls<Id>(w: World<Id>, reqs: seq<Request<Id>>, id: Id, e: Event)
    requires id in w.chans
    ensures id in ServeAll(w, reqs).chans
    ensures e in ServeAll(w, reqs).chans[id].events
       <==> Wanted(reqs, id, e) || (e in w.chans[id].events && NeverOff(reqs, id, e))
    decreases |reqs|
  {
    if reqs != [] {
      var rest := reqs[1..];
      ServeMask(w, reqs[0], id, e);
      MaskFollowsCalls(Serve(w, reqs[0]), rest, id, e);
      WantedStep(reqs, id, e);
    }
  }

  lemma WantedStep<Id>(reqs: seq<Request<Id>>, id: Id, e: Event)
    requires reqs != []
    ensures Wanted(reqs, id, e)
       <==> Wanted(reqs[1..], id, e) || (Enables(reqs[0], id, e) && NeverOff(reqs[1..], id, e))
    ensures NeverOff(reqs, id, e) <==> NeverOff(reqs[1..], id, e) && !Disables(reqs[0], id, e)
  {
    var rest := reqs[1..];
    assert forall k :: 0 < k < |reqs| ==> reqs[k] == rest[k - 1];
    if Wanted(rest, id, e) {
      var i :| 0 <= i < |rest| && Enables(rest[i], id, e) && forall j :: i < j < |rest| ==> !Disables(rest[j], id, e);
      assert Enables(reqs[i + 1], id, e);
    }
    if Wanted(reqs, id, e) {
      var i :| 0 <= i < |reqs| && Enables(reqs[i], id, e) && forall j :: i < j < |reqs| ==> !Disables(reqs[j], id, e);
      assert forall j :: i <= j < |rest| ==> rest[j] == reqs[j + 1];
      assert i > 0 ==> Enables(rest[i - 1], id, e);
    }
  }

  /** What a successful update leaves behind: a kAdded channel whose mask has become empty is kDeleted and no
      longer watched; in every other case the channel is kAdded and watched with its new mask. */
  lemma WatchedAfterUpdate<Id>(w: World<Id>, req: Request<Id>)
    requires Agreement(w) && req.id in w.chans && !req.RemoveChannel?
    requires Call(w.registry, req.id, w.chans[req.id], req).ok
    ensures var c, e := w.chans[req.id], Serve(w, req); var d := e.chans[req.id];
      && (c.index.Added? && d.events == {} ==> d.index.Deleted? && c.fd !in e.registry.kernel)
      && (!c.index.Added? || d.events != {} ==>
            d.index.Added? && c.fd in e.registry.kernel && e.registry.kernel[c.fd] == Interest(d.events, req.id))
  {
    assert ChannelAgrees(w.registry, req.id, w.chans[req.id]);
    ServeKeepsAgreement(w, req);
    assert ChannelAgrees(Serve(w, req).registry, req.id, Serve(w, req).chans[req.id]);
  }

  /** While it has events, a channel is not removed, by itself or by the poller. */
  lemma EnabledStays<Id>(w: World<Id>, id: Id)
    requires id in w.chans && w.chans[id].events != {}
    ensures Serve(w, RemoveChannel(id)) == w
    ensures Remove(w.registry, id, w.chans[id]) == Outcome(w.registry, w.chans[id], false)
  {
    assert w.chans[id := w.chans[id]] == w.chans;
  }

  /** The channel passes for registered and is not, or for new while its descriptor is taken. */
  predicate Stranger<Id(==)>(r: Registry<Id>, id: Id, c: Chan) {
    if c.index.New? then c.fd in r.channels else c.fd !in r.channels || r.channels[c.fd] != id
  }

  /** Even without the agreement, such a channel is refused, and neither the map nor the kernel changes. */
  lemma StrangersChangeNothing<Id>(r: Registry<Id>, id: Id, c: Chan, req: Request<Id>)
    requires Stranger(r, id, c)
    ensures var o := Call(r, id, c, req); !o.ok && o.registry == r && o.chan.index == c.index
    ensures !c.index.New? ==> UpdateAsWritten(r, id, c) == Outcome(r, c, false)
  {
  }

  /** Even without the agreement, an update of any other channel fails exactly if the kernel refuses it, and
      then no registration changes and the channel is left kAdded. */
  lemma RefusalIsReported<Id>(r: Registry<Id>, id: Id, c: Chan, req: Request<Id>)
    requires !req.RemoveChannel? && !Stranger(r, id, c)
    ensures var o := Call(r, id, c, req);
      && o.registry.refused == r.refused + (if o.ok then 0 else 1)
      && (!o.ok ==> o.registry.kernel == r.kernel && o.chan.index.Added?)
  {
  }

  // ----- the lines that differ from their intent, read literally -----

  /** updateChannel with its guard as written: every index but kNew takes the kDeleted path. */
  function UpdateAsWritten<Id(==)>(r: Registry<Id>, id: Id, chan: Chan): Outcome<Id> {
    var fd := chan.fd;
    if chan.index.New? then
      if fd in r.channels then Outcome(r, chan, false)
      else Add(r.(channels := r.channels[fd := id]), id, chan)
    else if fd !in r.channels || r.channels[fd] != id then Outcome(r, chan, false)
    else Add(r, id, chan)
  }

  /** As written, an update of a channel that is already watched is refused by the kernel, so the
      literal code works exactly for channels that are not kAdded. */
  lemma LiteralUpdateCorrectIff<Id>(w: World<Id>, id: Id, events: set<Event>)
    requires Agreement(w) && id in w.chans
    ensures var c := w.chans[id].(events := events);
      (UpdateAsWritten(w.registry, id, c) == Update(w.registry, id, c) <==> !c.index.Added?)
      && UpdateAsWritten(w.registry, id, c).registry.refused == if c.index.Added? then 1 else 0
  {
    assert ChannelAgrees(w.registry, id, w.chans[id]);
  }

  /** removeChannel with its last line as written. */
  function RemoveAsWritten<Id(==)>(r: Registry<Id>, id: Id, chan: Chan): Outcome<Id> {
    var o := Remove(r, id, chan);
    if o.ok then o.(chan := o.chan.(index := Added)) else o
  }

  /** As written, removing keeps the agreement exactly when it is refused; otherwise the channel passes for
      kAdded while neither the map nor the kernel knows it. */
  lemma LiteralRemoveCorrectIff<Id>(w: World<Id>, id: Id)
    requires Agreement(w) && id in w.chans
    ensures var c := w.chans[id]; var o := RemoveAsWritten(w.registry, id, c);
      Removable(w.registry, id, c) ==>
        o.chan.index.Added? && c.fd !in o.registry.channels && c.fd !in o.registry.kernel
    ensures var o := RemoveAsWritten(w.registry, id, w.chans[id]);
      Agreement(World(o.registry, w.chans[id := o.chan])) <==> !Removable(w.registry, id, w.chans[id])
  {
    assert ChannelAgrees(w.registry, id, w.chans[id]);
    var o := RemoveAsWritten(w.registry, id, w.chans[id]);
    var w' := World(o.registry, w.chans[id := o.chan]);
    if Removable(w.registry, id, w.chans[id]) {
      assert !ChannelAgrees(w'.registry, id, w'.chans[id]);
    } else {
      assert w' == w by {
        assert w.chans[id := w.chans[id]] == w.chans;
      }
    }
  }

  /** The mask of a channel is overwritten behind the poller's back. */
  function WithEvents<Id(==)>(w: World<Id>, id: Id, events: set<Event>): World<Id>
    requires id in w.chans
  {
    w.(chans := w.chans[id := w.chans[id].(events := events)])
  }

  /** set_revents as written stores the reported events in m_events. That keeps the agreement
      exactly when the report equals the mask, or the channel is not registered. */
  lemma LiteralSetReventsCorrectIff<Id>(w: World<Id>, id: Id, got: set<Event>)
    requires Agreement(w) && id in w.chans
    ensures Agreement(WithEvents(w, id, got)) <==> got == w.chans[id].events || w.chans[id].index.New?
  {
    var w' := WithEvents(w, id, got);
    assert ChannelAgrees(w.registry, id, w.chans[id]);
    if got == w.chans[id].events || w.chans[id].index.New? {
      forall other | other in w'.chans
        ensures ChannelAgrees(w'.registry, other, w'.chans[other])
      {
        assert ChannelAgrees(w.registry, other, w.chans[other]);
      }
    } else {
      assert !ChannelAgrees(w'.registry, id, w'.chans[id]);
    }
  }

  /** add_revents as written adds the reported events to m_events. That keeps the agreement exactly
      when it asked for all of them already, or the channel is not registered. */
  lemma LiteralAddReventsCorrectIff<Id>(w: World<Id>, id: Id, got: set<Event>)
    requires Agreement(w) && id in w.chans
    ensures Agreement(WithEvents(w, id, w.chans[id].events + got))
       <==> got <= w.chans[id].events || w.chans[id].index.New?
  {
    var events := w.chans[id].events;
    LiteralSetReventsCorrectIff(w, id, events + got);
    assert events + got == events <==> got <= events;
  }
}
