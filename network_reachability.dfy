/**
 * `AppNetworkReachability`: a view controller that subscribes to network
 * reachability gets its listener closures called with every status the
 * internet and host reachability managers report. The closures remember the
 * last status of each and decide which of four callbacks to fire. A second
 * protocol shows and hides a banner about the network, with one flag shared
 * by every view controller saying whether a banner is up.
 */
module NetworkReachability {
  import opened Wrappers
  import Color

  /** Alamofire's `NetworkReachabilityStatus.ConnectionType`. */
  datatype ConnectionType = EthernetOrWiFi | Wwan

  /** Alamofire's `NetworkReachabilityStatus`; equality compares the connection type too. */
  datatype Status = Unknown | NotReachable | Reachable(connection: ConnectionType)

  /** The four callbacks of `AppNetworkReachabilitySubscriberProtocol`. */
  datatype Callback = DeviceIsOffline | DeviceIsBackOnline | HostIsNotReachable | UnknownErrorInNetwork

  function AsSeq<T>(o: Option<T>): (s: seq<T>)
    ensures |s| <= 1 && (o.Some? <==> |s| == 1) && (o.Some? ==> s == [o.value])
  {
    if o.Some? then [o.value] else []
  }

  // ---------------------------------------------------------------------
  // The listeners as transition functions
  // ---------------------------------------------------------------------

  /** The internet listener's choice of callback, given the status it last recorded. */
  function InternetReaction(last: Option<Status>, event: Status): (r: Option<Callback>)
    ensures last.None? ==> r.None?
    ensures last.Some? && event == NotReachable ==> r == Some(DeviceIsOffline)
    ensures last.Some? && event == Unknown ==> r == Some(UnknownErrorInNetwork)
    ensures last.Some? && event.Reachable? ==> r == (if last.value != event then Some(DeviceIsBackOnline) else None)
    ensures r == Some(DeviceIsBackOnline) ==> event.Reachable? && last.Some? && last.value != event
  {
    match last
    case None => None
    case Some(previous) =>
      if event == NotReachable then Some(DeviceIsOffline)
      else if event == Unknown then Some(UnknownErrorInNetwork)
      else if previous != event then Some(DeviceIsBackOnline)
      else None
  }

  /** The host listener's choice of callback, given the statuses last recorded. */
  function HostReaction(lastHost: Option<Status>, lastInternet: Option<Status>, event: Status): (r: Option<Callback>)
    ensures r.Some? ==> lastHost.Some? && lastInternet.Some?
    ensures lastHost.Some? && lastInternet == Some(NotReachable) ==> r == Some(DeviceIsOffline)
    ensures lastHost.Some? && lastInternet.Some? && lastInternet != Some(NotReachable) ==>
      r == (match event
            case NotReachable => Some(HostIsNotReachable)
            case Unknown => Some(UnknownErrorInNetwork)
            case Reachable(_) => None)
    ensures r != Some(DeviceIsBackOnline)
  {
    if lastHost.None? || lastInternet.None? then None
    else if lastInternet.value == NotReachable then Some(DeviceIsOffline)
    else if event == NotReachable then Some(HostIsNotReachable)
    else if event == Unknown then Some(UnknownErrorInNetwork)
    else None
  }

  /** The callbacks a series of internet events fires, from a given recorded status. */
  function InternetRun(last: Option<Status>, events: seq<Status>): (fired: seq<Callback>)
    ensures |fired| <= |events|
    decreases |events|
  {
    if events == [] then []
    else AsSeq(InternetReaction(last, events[0])) + InternetRun(Some(events[0]), events[1..])
  }

  function Flatten(s: seq<Option<Callback>>): seq<Callback>
    decreases |s|
  {
    if s == [] then [] else AsSeq(s[0]) + Flatten(s[1..])
  }

  /**
   * What each event fires depends only on the event before it: the listener's
   * state is exactly the previous event.
   */
  function PairwiseReactions(before: Option<Status>, events: seq<Status>): (r: seq<Option<Callback>>)
    ensures |r| == |events|
  {
    seq(|events|, k requires 0 <= k < |events| =>
      InternetReaction(if k == 0 then before else Some(events[k - 1]), events[k]))
  }

  lemma {:induction false} InternetRunIsPairwise(before: Option<Status>, events: seq<Status>)
    ensures InternetRun(before, events) == Flatten(PairwiseReactions(before, events))
    decreases |events|
  {
    if events != [] {
      InternetRunIsPairwise(Some(events[0]), events[1..]);
      var all := PairwiseReactions(before, events);
      assert all[0] == InternetReaction(before, events[0]);
      assert all[1..] == PairwiseReactions(Some(events[0]), events[1..]);
    }
  }

  /**
   * A subscriber's first event never fires, and a move between two reachable
   * connection types reports the device back online although it never went
   * offline.
   */
  lemma InternetFirstEventsExamples()
    ensures forall s :: InternetRun(None, [s]) == []
    ensures InternetRun(None, [Reachable(EthernetOrWiFi), Reachable(Wwan)]) == [DeviceIsBackOnline]
    ensures InternetRun(None, [Reachable(Wwan), Reachable(Wwan)]) == []
    ensures InternetRun(None, [NotReachable, NotReachable, NotReachable]) == [DeviceIsOffline, DeviceIsOffline]
  {
    forall s ensures InternetRun(None, [s]) == [] {
      assert [s][1..] == [];
    }
    var a := [Reachable(EthernetOrWiFi), Reachable(Wwan)];
    assert a[1..] == [Reachable(Wwan)] && a[1..][1..] == [];
    var b := [Reachable(Wwan), Reachable(Wwan)];
    assert b[1..] == [Reachable(Wwan)] && b[1..][1..] == [];
    var c := [NotReachable, NotReachable, NotReachable];
    assert c[1..] == [NotReachable, NotReachable] && c[1..][1..] == [NotReachable] && c[1..][1..][1..] == [];
  }

  /** A view controller that adopts `AppNetworkReachabilitySubscriberProtocol`. */
  class Subscriber {
    var lastReportedInternetStatus: Option<Status>
    var lastReportedHostStatus: Option<Status>
    /** The callbacks fired on the subscriber, in order. */
    var fired: seq<Callback>

    constructor ()
      ensures lastReportedInternetStatus == None && lastReportedHostStatus == None && fired == []
    {
      lastReportedInternetStatus := None;
      lastReportedHostStatus := None;
      fired := [];
    }

    /** The internet manager's `listener` closure. */
    method OnInternetStatus(event: Status)
      modifies this
      ensures lastReportedInternetStatus == Some(event)
      ensures lastReportedHostStatus == old(lastReportedHostStatus)
      ensures fired == old(fired) + AsSeq(InternetReaction(old(lastReportedInternetStatus), event))
    {
      if lastReportedInternetStatus.Some? {
        var lastReported := lastReportedInternetStatus.value;
        if event == NotReachable {
          fired := fired + [DeviceIsOffline];
        } else if event == Unknown {
          fired := fired + [UnknownErrorInNetwork];
        } else if lastReported != event {
          fired := fired + [DeviceIsBackOnline];
        }
      }
      lastReportedInternetStatus := Some(event);
    }

    /** The host manager's `listener` closure. */
    method OnHostStatus(event: Status)
      modifies this
      ensures lastReportedHostStatus == Some(event)
      ensures lastReportedInternetStatus == old(lastReportedInternetStatus)
      ensures fired == old(fired) + AsSeq(HostReaction(old(lastReportedHostStatus), old(lastReportedInternetStatus), event))
    {
      if lastReportedHostStatus.Some? && lastReportedInternetStatus.Some? {
        var internet := lastReportedInternetStatus.value;
        if internet == NotReachable {
          fired := fired + [DeviceIsOffline];
        } else if event == NotReachable {
          fired := fired + [HostIsNotReachable];
        } else if event == Unknown {
          fired := fired + [UnknownErrorInNetwork];
        }
      }
      lastReportedHostStatus := Some(event);
    }
  }

  // ---------------------------------------------------------------------
  // The network banner
  // ---------------------------------------------------------------------

  /** A `CSNotificationView` as the banner code configures it. */
  datatype Banner = Banner(tint: Color.Rgb, message: string, fontSize: int, adjustsFontSizeToFitWidth: bool,
                           minimumScaleFactor: real, visible: bool, hidesOnTap: bool)

  /** `UIColor.red`, the tint both banners are shown with, as bytes. */
  const Red: Color.Rgb := Color.Rgb(255, 0, 0)

  /** Localisation keys of the two banner messages. */
  const OfflineMessageKey: string := "k_device_is_offline"
  const HostNotReachableMessageKey: string := "k_could_not_connect_to_server"

  /** The shared flag and one view controller's banner, as values. */
  datatype BannerState = BannerState(shown: bool, view: Option<Banner>)

  /** `showNotificationView(color:message:)`. */
  function Shown(s: BannerState, tint: Color.Rgb, message: string, hidesOnTap: bool): (r: BannerState)
    ensures s.shown ==> r == s
    ensures !s.shown && s.view.None? ==>
      r == BannerState(true, Some(Banner(tint, message, 16, true, 0.5, true, hidesOnTap)))
    ensures s.view.Some? ==> r == s
  {
    if s.shown then s
    else if s.view.None? then BannerState(true, Some(Banner(tint, message, 16, true, 0.5, true, hidesOnTap)))
    else s
  }

  /** `hideNetworkStatusNotificationView()`. */
  function Hidden(s: BannerState): (r: BannerState)
    ensures !r.shown && r.view.None?
  {
    BannerState(false, None)
  }

  /**
   * Showing is idempotent, a banner once up is never replaced by another
   * message, and hiding undoes showing.
   */
  lemma ShowHideLaws(s: BannerState, c: Color.Rgb, m: string, n: string, hidesOnTap: bool)
    ensures Shown(Shown(s, c, m, hidesOnTap), c, n, hidesOnTap) == Shown(s, c, m, hidesOnTap)
    ensures Shown(s, c, m, hidesOnTap).view.Some? ==> s.view.Some? || !s.shown
    ensures Hidden(Shown(s, c, m, hidesOnTap)) == Hidden(s)
    ensures Shown(Hidden(s), c, m, hidesOnTap).view == Some(Banner(c, m, 16, true, 0.5, true, hidesOnTap))
  {
  }

  /**
   * The flag is shared but the views are not: after one view controller
   * shows a banner, another that has none hides "its" banner, which clears
   * the flag, and a third can then show a second banner while the first is
   * still up.
   */
  lemma TwoBannersAtOnce(m: string)
    ensures var a := Shown(BannerState(false, None), Red, m, false);
      var c := Hidden(BannerState(a.shown, None));
      var b := Shown(BannerState(c.shown, None), Red, m, false);
      a.view.Some? && a.view.value.visible && b.view.Some? && b.view.value.visible
  {
  }

  /** The static `isNotificationIsShown` of the rendering helper. */
  class BannerFlag {
    var isShown: bool

    constructor ()
      ensures !isShown
    {
      isShown := false;
    }
  }

  /** A view controller that adopts `AppNetworkStatusNotificationViewRenderingProtocol`. */
  class BannerHost {
    const flag: BannerFlag
    const hideOnTap: bool
    var view: Option<Banner>

    constructor (flag: BannerFlag, hideOnTap: bool)
      ensures this.flag == flag && this.hideOnTap == hideOnTap && view == None
    {
      this.flag := flag;
      this.hideOnTap := hideOnTap;
      view := None;
    }

    function State(): BannerState
      reads this, flag
    {
      BannerState(flag.isShown, view)
    }

    /** `showNotificationView(color:message:)`. */
    method ShowNotificationView(color: Color.Rgb, message: string)
      modifies this, flag
      ensures State() == Shown(old(State()), color, message, hideOnTap)
    {
      if flag.isShown {
        return;
      }
      if view.None? {
        view := Some(Banner(color, message, 16, true, 0.5, true, hideOnTap));
        flag.isShown := true;
      }
    }

    /** `showOfflineNotificationView()`. */
    method ShowOfflineNotificationView(localize: string -> string)
      modifies this, flag
      ensures State() == Shown(old(State()), Red, localize(OfflineMessageKey), hideOnTap)
    {
      ShowNotificationView(Red, localize(OfflineMessageKey));
    }

    /** `showHostNotReachableNotificatioView()`. */
    method ShowHostNotReachableNotificationView(localize: string -> string)
      modifies this, flag
      ensures State() == Shown(old(State()), Red, localize(HostNotReachableMessageKey), hideOnTap)
    {
      ShowNotificationView(Red, localize(HostNotReachableMessageKey));
    }

    /** `hideNetworkStatusNotificationView()`. */
    method HideNetworkStatusNotificationView()
      modifies this, flag
      ensures State() == Hidden(old(State()))
    {
      view := None;
      flag.isShown := false;
    }

    /** The banner's `tapHandler`, installed only when the host hides on tap. */
    method Tap()
      modifies this, flag
      ensures old(view).Some? && old(view).value.hidesOnTap ==> State() == Hidden(old(State()))
      ensures !(old(view).Some? && old(view).value.hidesOnTap) ==> State() == old(State())
    {
      if view.Some? && view.value.hidesOnTap {
        HideNetworkStatusNotificationView();
      }
    }
  }
}
