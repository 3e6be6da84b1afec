/**
 * The plugin instance: the mutation observer and the poll interval it holds, the servers
 * container its poll tracks, and the lifecycle that creates and cancels them.
 *
 * Observers and interval timers are handles with a flag saying whether they are still live;
 * the ghost sets `observers` and `timers` hold every handle this instance ever created.
 */
module Plugin {
  import opened Wrappers
  import opened Dom
  import opened Painting

  /** A `MutationObserver` observing `target`; `connected` until `disconnect()` is called. */
  class Observer {
    const target: Node
    var connected: bool

    constructor (target: Node)
      ensures this.target == target && connected
    {
      this.target := target;
      connected := true;
    }

    method Disconnect()
      modifies this
      ensures !connected
    {
      connected := false;
    }
  }

  /** A handle returned by `setInterval`; `active` until `clearInterval` is called on it. */
  class IntervalTimer {
    var active: bool

    constructor ()
      ensures active
    {
      active := true;
    }

    method Clear()
      modifies this
      ensures !active
    {
      active := false;
    }
  }

  class DistinctFolders {
    var observer: Observer?
    var interval: IntervalTimer?
    /** The container the poll tracks (the `serversNode` captured by the interval callback). */
    var serversNode: Node?
    ghost var observers: set<Observer>
    ghost var timers: set<IntervalTimer>

    /** At most one observer of this instance is connected, and it is the stored one. */
    ghost predicate Valid()
      reads this, observers
    {
      && (observer != null ==> observer in observers)
      && (interval != null ==> interval in timers)
      && forall o :: o in observers && o.connected ==> o == observer
    }

    ghost function Connected(): set<Observer>
      reads this, observers
    {
      set o | o in observers && o.connected
    }

    ghost function ActiveTimers(): set<IntervalTimer>
      reads this, timers
    {
      set t | t in timers && t.active
    }

    constructor ()
      ensures Valid() && observer == null && interval == null && serversNode == null
      ensures observers == {} && timers == {}
    {
      observer := null;
      interval := null;
      serversNode := null;
      observers := {};
      timers := {};
    }

    /**
     * `initServers`: paint every direct wrapper child of `node`, then start a new observer on
     * it and disconnect the one stored before.
     */
    method InitServers(node: Node?)
      requires Valid() && node != null
      modifies this, observer, Indicators(node.childNodes)
      ensures Valid()
      ensures fresh(observer) && observer.connected && observer.target == node
      ensures observers == old(observers) + {observer}
      ensures Connected() == {observer}
      ensures old(observer) != null ==> !old(observer).connected
      ensures interval == old(interval) && serversNode == old(serversNode) && timers == old(timers)
      ensures forall b :: b in Indicators(node.childNodes) ==> b.style == PaintedBy(node.childNodes, b, old(b.style))
    {
      PaintWrapperChildren(node.childNodes);
      var o := new Observer(node);
      if observer != null {
        observer.Disconnect();
      }
      observer := o;
      observers := observers + {o};
    }

    /**
     * `start`: initialise on the container found at start, track it, and begin the poll.
     * A timer held from an earlier start is not cleared.
     */
    method Start(lookup: Node?)
      requires Valid() && lookup != null
      modifies this, observer, Indicators(lookup.childNodes)
      ensures Valid()
      ensures fresh(observer) && observer.connected && observer.target == lookup
      ensures observers == old(observers) + {observer} && Connected() == {observer}
      ensures old(observer) != null ==> !old(observer).connected
      ensures forall b :: b in Indicators(lookup.childNodes) ==> b.style == PaintedBy(lookup.childNodes, b, old(b.style))
      ensures serversNode == lookup
      ensures fresh(interval) && interval.active && timers == old(timers) + {interval}
      ensures ActiveTimers() == old(ActiveTimers()) + {interval}
    {
      var node := lookup;
      InitServers(node);
      serversNode := node;
      var t := new IntervalTimer();
      interval := t;
      timers := timers + {t};
    }

    /**
     * The body of the interval callback. `stillAttached` is the host's answer to whether the
     * tracked container is still in the document (false for a null container); `lookup` is what
     * a fresh lookup of the container returns.
     */
    method Tick(stillAttached: bool, lookup: Node?)
      requires Valid()
      modifies this, observer, if lookup == null then {} else Indicators(lookup.childNodes)
      ensures Valid()
      ensures interval == old(interval) && timers == old(timers)
      ensures old(serversNode) != null && stillAttached ==>
        && serversNode == old(serversNode) && observer == old(observer)
        && observers == old(observers) && Connected() == old(Connected())
        && (lookup != null ==> forall b :: b in Indicators(lookup.childNodes) ==> b.style == old(b.style))
      ensures !(old(serversNode) != null && stillAttached) ==> serversNode == lookup
      ensures !(old(serversNode) != null && stillAttached) && lookup == null ==>
        observer == old(observer) && observers == old(observers) && Connected() == old(Connected())
      ensures !(old(serversNode) != null && stillAttached) && lookup != null ==>
        && fresh(observer) && observer.connected && observer.target == lookup
        && observers == old(observers) + {observer} && Connected() == {observer}
        && (old(observer) != null ==> !old(observer).connected)
        && forall b :: b in Indicators(lookup.childNodes) ==> b.style == PaintedBy(lookup.childNodes, b, old(b.style))
    {
      if serversNode != null && stillAttached {
        return;
      }
      serversNode := lookup;
      if serversNode == null {
        return;
      }
      InitServers(lookup);
    }

    /**
     * `stop`: disconnect the observer, clear the poll, and reset every direct wrapper child of
     * the container found at stop.
     */
    method Stop(lookup: Node?)
      requires Valid() && observer != null && lookup != null
      modifies this, observer, interval, Indicators(lookup.childNodes)
      ensures Valid()
      ensures observer == null && interval == null && Connected() == {}
      ensures !old(observer).connected
      ensures old(interval) != null ==> !old(interval).active
      ensures ActiveTimers() == old(ActiveTimers()) - {old(interval)}
      ensures serversNode == old(serversNode) && observers == old(observers) && timers == old(timers)
      ensures forall b :: b in Indicators(lookup.childNodes) ==> b.style == Cleared(old(b.style))
    {
      observer.Disconnect();
      observer := null;
      if interval != null {
        interval.Clear();
        interval := null;
      }
      var node := lookup;
      ResetWrapperChildren(node.childNodes);
    }
  }

  /** Starting on a container and stopping leaves no observer connected, no timer active, and
      every indicator of a wrapper child of the container without a background colour. */
  method StartThenStop(container: Node) returns (plugin: DistinctFolders)
    modifies Indicators(container.childNodes)
    ensures fresh(plugin) && plugin.Valid()
    ensures plugin.observer == null && plugin.interval == null
    ensures plugin.Connected() == {} && plugin.ActiveTimers() == {}
    ensures forall b :: b in Indicators(container.childNodes) ==> b.style.backgroundColor == None
  {
    plugin := new DistinctFolders();
    plugin.Start(container);
    plugin.Stop(container);
  }

  /** Starting twice leaves exactly one observer connected, but two poll timers active. */
  method StartTwice(container: Node) returns (plugin: DistinctFolders)
    modifies Indicators(container.childNodes)
    ensures fresh(plugin) && plugin.Valid()
    ensures |plugin.Connected()| == 1 && |plugin.ActiveTimers()| == 2
  {
    plugin := new DistinctFolders();
    plugin.Start(container);
    var first := plugin.interval;
    plugin.Start(container);
    assert plugin.ActiveTimers() == {first, plugin.interval};
  }

  /** When the tracked container is detached and a new one is found, the poll re-initialises on
      the new one, and the observer of the old one is disconnected. */
  method Reattach(oldContainer: Node, newContainer: Node) returns (plugin: DistinctFolders)
    modifies Indicators(oldContainer.childNodes), Indicators(newContainer.childNodes)
    ensures fresh(plugin) && plugin.Valid()
    ensures plugin.serversNode == newContainer
    ensures plugin.observer != null && plugin.observer.target == newContainer
    ensures plugin.Connected() == {plugin.observer}
    ensures forall o :: o in plugin.observers && o.target == oldContainer && oldContainer != newContainer ==> !o.connected
    ensures DistinctIndicators(newContainer.childNodes) ==>
      forall i :: 0 <= i < |newContainer.childNodes| && Paints(newContainer.childNodes[i]) ==>
        newContainer.childNodes[i].background.style ==
          Style(Some(PaintColour(newContainer.childNodes[i].svgChild.iconColor)), Some(IndicatorOpacity))
  {
    plugin := new DistinctFolders();
    plugin.Start(oldContainer);
    plugin.Tick(false, newContainer);
    var cs := newContainer.childNodes;
    if DistinctIndicators(cs) {
      forall i | 0 <= i < |cs| && Paints(cs[i])
        ensures cs[i].background.style == Style(Some(PaintColour(cs[i].svgChild.iconColor)), Some(IndicatorOpacity))
      {
        OwnIndicator(cs, i);
      }
    }
  }

  /** After two starts, a stop clears only the second poll timer: the first stays active, and its
      callback can later re-initialise and reconnect an observer. */
  method StartTwiceStop(container: Node) returns (plugin: DistinctFolders)
    modifies Indicators(container.childNodes)
    ensures fresh(plugin) && plugin.Valid()
    ensures plugin.observer == null && plugin.interval == null
    ensures plugin.Connected() == {} && |plugin.ActiveTimers()| == 1
  {
    plugin := new DistinctFolders();
    plugin.Start(container);
    var first := plugin.interval;
    plugin.Start(container);
    var second := plugin.interval;
    plugin.Stop(container);
    assert plugin.ActiveTimers() == {first, second} - {second};
    assert first != second;
    assert plugin.ActiveTimers() == {first};
  }
}
