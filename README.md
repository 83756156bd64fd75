# AppProject basic setup, modelled in Dafny

This project models the `_BasicSetup` layer of an iOS app template written in Swift. It proves properties of that model. The layer consists of:

- **`AppNotificationCenter`**: a registry in front of the system notification center. It keeps one registration per notification name, a duplicate-free observer list for each name, and a log of posted notifications. It forwards posts, observations and removals to the system center; the one `removePost` branch that forwards nothing is listed under "## Findings", and the model's class forwards the removal there too.
- **The two transition handlers.**
  - `UIViewControllerBasicTransitioningHandler` presents a view controller sliding in from one side. When allowed, it lets a pan gesture dismiss the view controller towards the side it came from.
  - `UIViewControllerDismissGestureHandler` lets a pan dismiss a view controller towards one fixed side.
  - Both measure the pan with the same clamped progress functions. Both drive a percent-driven interactor through the same small state machine.
- **`AppNetworkReachability`**: the listener closures that turn internet and host reachability statuses into four callbacks. Also the network banner with its shared "a banner is shown" flag.
- **`AppErrorProtocol` and `NetworkingError`**: app errors are identified by their integer code. They describe themselves through a fixed domain, a user-info dictionary and a one-line description.
- **The value helpers:**
  - hex colours split into bytes (`UIColor(hex:)`);
  - the service URI string (`AppConstants.NetworkService.uri`);
  - integer-offset substrings and the e-mail pattern (`String+Util`);
  - the memoising font cache (`UIFont.appFont`).

How the model is built:

- Each Swift file is one Dafny module. `PanGesture` holds what the two transition files share: the geometry, the progress functions and the interactor.
- `TransitionAgreement` states that the two transition files agree.
- Where the Swift code updates objects in place, the model is a class: the registry, the handlers, the reachability subscriber, the banner host and the font cache. Each method's postcondition ties the new state to a pure function of the old state. The properties are then lemmas about those functions.
- Calls into UIKit, Foundation and the notification center become recorded effects or explicit parameters:
  - the system notification center becomes a log of forwarded calls, with a separate function that replays the log;
  - interactor updates become a list of recorded effects;
  - localisation becomes a `string -> string` parameter;
  - font construction becomes two function parameters.

## Model

| member | source | states |
|---|---|---|
| NotificationRegistry.WithObserver | AppProject/_BasicSetup/AppNotificationCenter.swift:57-61 | afterwards the observer's key is present; the old list is kept as a prefix with at most one entry added; a list that already has the key is returned unchanged, and otherwise exactly `o` itself is appended; a list without repeated keys stays without them |
| NotificationRegistry.WithoutKey | AppProject/_BasicSetup/AppNotificationCenter.swift:63-76 | a list without the key is returned unchanged; otherwise exactly one entry is removed |
| NotificationRegistry.WithoutKeyIsFilter | AppProject/_BasicSetup/AppNotificationCenter.swift:63-76 | on a list without repeated keys, removing the first entry with a key removes every entry with that key and keeps the order of the rest |
| NotificationRegistry.FilterKeepsDistinct | AppProject/_BasicSetup/AppNotificationCenter.swift:52-76 | any order-preserving sublist of a list without repeated keys has no repeated keys, so removals keep the invariant |
| NotificationRegistry.IndexOfKey | AppProject/_BasicSetup/AppNotificationCenter.swift:64-70 | the position of the first entry with the key, or -1 exactly when no entry has it |
| NotificationRegistry.IndexOfName | AppProject/_BasicSetup/AppNotificationCenter.swift:124 | the position of the first registration with the name, or -1 exactly when there is none |
| NotificationRegistry.Registration.constructor | AppProject/_BasicSetup/AppNotificationCenter.swift:52-55 | a registration holds its name and exactly the one observer; the invariant holds |
| NotificationRegistry.Registration.AddObserver | AppProject/_BasicSetup/AppNotificationCenter.swift:57-61 | the list becomes `WithObserver` of the old list (unchanged if the key is present, else appended); the invariant holds |
| NotificationRegistry.Registration.RemoveObserver | AppProject/_BasicSetup/AppNotificationCenter.swift:63-76 | the entry with the observer's key is cut out; this equals removing every entry with that key; the invariant holds |
| NotificationRegistry.Registration.RemoveEach | AppProject/_BasicSetup/AppNotificationCenter.swift:182-184 | after removing each object in turn, exactly the entries whose key is some object's key are gone |
| NotificationRegistry.Registration.RemoveAllObservers | AppProject/_BasicSetup/AppNotificationCenter.swift:78-80 | the list is empty |
| NotificationRegistry.Center.constructor | AppProject/_BasicSetup/AppNotificationCenter.swift:108-110 | no registrations, no posted items, nothing forwarded |
| NotificationRegistry.Center.Post | AppProject/_BasicSetup/AppNotificationCenter.swift:112-117 | exactly one item with the given name, object and user info is appended to the log; the post is forwarded; registrations are untouched |
| NotificationRegistry.Center.ObservePost | AppProject/_BasicSetup/AppNotificationCenter.swift:120-137 | forwards the observation; the table becomes `Observed`; the returned registration is in the registry and holds the observer; it is fresh exactly when the name had no registration |
| NotificationRegistry.Center.AppendRegistration | AppProject/_BasicSetup/AppNotificationCenter.swift:126-129 | a new registration holding just the observer is appended at the end of the list |
| NotificationRegistry.Center.AddToRegistration | AppProject/_BasicSetup/AppNotificationCenter.swift:131-133 | the observer is added to the existing registration for the name; every other registration is unchanged |
| NotificationRegistry.ObservedSpec | AppProject/_BasicSetup/AppNotificationCenter.swift:120-137 | observing keeps the invariant; the name's observers become `WithObserver` of the old ones (or just the observer, appended at the end); every other name is untouched |
| NotificationRegistry.Observed | AppProject/_BasicSetup/AppNotificationCenter.swift:120-137 | the table after `observePost`: a new one-observer registration appended for an unregistered name, otherwise the name's list extended by `WithObserver`; its properties are proved in `ObservedSpec` |
| NotificationRegistry.Center.Unregister | AppProject/_BasicSetup/AppNotificationCenter.swift:160 | `remove(at:)` takes exactly that registration out of the list; the logs are untouched |
| NotificationRegistry.Center.DropRegistration | AppProject/_BasicSetup/AppNotificationCenter.swift:153-160 | forwards one removal per observer of the registration, empties it and drops it from the table |
| NotificationRegistry.Center.RemoveFromRegistration | AppProject/_BasicSetup/AppNotificationCenter.swift:162-172 | removes the observer's key from the registration, drops the registration once it is empty, and forwards the removal: this is the corrected behaviour, since the source's branch forwards nothing |
| NotificationRegistry.Center.RemovePost | AppProject/_BasicSetup/AppNotificationCenter.swift:139-174 | without an observer the table becomes `NameRemoved` and the dropped registration is emptied; with one the table becomes `ObserverRemoved`; the forwarded calls are the corrected `RemovePostCalls`, which differ from the source's (`RemovePostCallsAsWritten`) on a registered name with an observer; the post log is untouched |
| NotificationRegistry.NameRemovedSpec | AppProject/_BasicSetup/AppNotificationCenter.swift:144-160 | the name no longer has a registration; every other name's registration is kept as it was; an unregistered name leaves the table exactly as it was; the invariant holds |
| NotificationRegistry.NameRemoved | AppProject/_BasicSetup/AppNotificationCenter.swift:144-160 | the table after `removePost(name)` without an observer: the name's registration taken out; its properties are proved in `NameRemovedSpec` |
| NotificationRegistry.ObserverRemovedSpec | AppProject/_BasicSetup/AppNotificationCenter.swift:162-172 | the name's observers lose every entry with the observer's key; the registration is gone exactly when nothing is left; other names are untouched; an unregistered name leaves the table as it was; the invariant holds |
| NotificationRegistry.ObserverRemoved | AppProject/_BasicSetup/AppNotificationCenter.swift:162-172 | the table after `removePost(name, observer:)`: the observer's key cut from the name's list and the registration dropped once empty; its properties are proved in `ObserverRemovedSpec` |
| NotificationRegistry.Center.RemoveObservers | AppProject/_BasicSetup/AppNotificationCenter.swift:176-190 | the same registration objects remain; the table becomes `RemovedEverywhere`; the system center is told to forget the observer |
| NotificationRegistry.RemovedEverywhereSpec | AppProject/_BasicSetup/AppNotificationCenter.swift:176-190 | no registration keeps an entry of the observer; every other entry is kept in order; no registration is removed, not even an empty one; the invariant holds |
| NotificationRegistry.RemovedEverywhere | AppProject/_BasicSetup/AppNotificationCenter.swift:176-190 | the table after `removeObservers(for:)`: every registration loses the entries of that observer, empty ones included; its properties are proved in `RemovedEverywhereSpec` |
| NotificationRegistry.RemovePostAsWrittenKeepsDelivering | AppProject/_BasicSetup/AppNotificationCenter.swift:162-172 | as written, removing a registered observer forgets it in the registry while the system center keeps delivering to it |
| NotificationRegistry.RemovePostStopsDelivering | AppProject/_BasicSetup/AppNotificationCenter.swift:140-149 | with the removal forwarded, the system center no longer delivers the name to that observer, from any starting state |
| NotificationRegistry.RemovePostCallsAsWritten | AppProject/_BasicSetup/AppNotificationCenter.swift:139-174 | the calls `removePost` forwards as written: nothing for a registered name with an observer; `RemovePostAsWrittenKeepsDelivering` shows the system center then still delivers |
| NotificationRegistry.RemovePostCalls | AppProject/_BasicSetup/AppNotificationCenter.swift:139-174 | the corrected calls: the observer's removal is forwarded whether or not the name is registered; `RemovePostStopsDelivering` proves delivery then stops |
| PanGesture.ProgressMovement | AppProject/_BasicSetup/UIViewControllerBasicTransitioningHandler.swift:188-193 | the result is in [0,1]; it is the identity on [0,1], 0 below and 1 above |
| PanGesture.ProgressMovementMonotone | AppProject/_BasicSetup/UIViewControllerBasicTransitioningHandler.swift:188-193 | clamping is monotone and idempotent |
| PanGesture.TopToBottomProgress | AppProject/_BasicSetup/UIViewControllerBasicTransitioningHandler.swift:195-201 | the result is in [0,1]; it is positive exactly for a downward move; it is 1 exactly once the move reaches the view's height; for a move between 0 and the height it is the move divided by the height |
| PanGesture.BottomToTopProgress | AppProject/_BasicSetup/UIViewControllerBasicTransitioningHandler.swift:203-214 | the result is in [0,1]; it is positive exactly for an upward move; it is 1 exactly once the move reaches the height; for an upward move of at most the height it is that move divided by the height |
| PanGesture.LeftToRightProgress | AppProject/_BasicSetup/UIViewControllerBasicTransitioningHandler.swift:216-222 | the result is in [0,1]; it is positive exactly for a rightward move; it is 1 exactly once the move reaches the view's width; for a move between 0 and the width it is the move divided by the width |
| PanGesture.RightToLeftProgress | AppProject/_BasicSetup/UIViewControllerBasicTransitioningHandler.swift:224-236 | the result is in [0,1]; it is positive exactly for a leftward move; it is 1 exactly once the move reaches the width; for a leftward move of at most the width it is that move divided by the width |
| PanGesture.MirroredProgress | AppProject/_BasicSetup/UIViewControllerBasicTransitioningHandler.swift:195-236 | bottom-to-top and right-to-left progress are the other two measured on the mirrored translation |
| PanGesture.ClampedShareThreshold | AppProject/_BasicSetup/UIViewControllerBasicTransitioningHandler.swift:188-193 | a clamped share of a movement along an extent passes 0.3 exactly when the movement passes 30% of the extent |
| PanGesture.QuotientSign | AppProject/_BasicSetup/UIViewControllerBasicTransitioningHandler.swift:195-236 | dividing a translation by a positive dimension keeps its sign and compares it with ±1 as the translation compares with ±the dimension |
| PanGesture.Step | AppProject/_BasicSetup/UIViewControllerBasicTransitioningHandler.swift:238-262 | began sets `hasStarted` and requests the dismissal; changed sets `shouldFinish` exactly when progress > 0.3, keeps `hasStarted` and reports the progress; cancelled clears `hasStarted` and cancels; ended clears `hasStarted` and finishes when `shouldFinish` held, cancelling otherwise; other states change nothing and emit nothing |
| PanGesture.RunAppend | AppProject/_BasicSetup/UIViewControllerBasicTransitioningHandler.swift:238-262 | running two series of callbacks one after the other equals running them joined |
| PanGesture.RunMoves | AppProject/_BasicSetup/UIViewControllerBasicTransitioningHandler.swift:249-251 | a run of changed callbacks updates the interactor with each progress in order, keeps `hasStarted`, and leaves `shouldFinish` set by the last one |
| PanGesture.CompletedPan | AppProject/_BasicSetup/UIViewControllerBasicTransitioningHandler.swift:238-262 | a pan that begins, moves and ends requests dismissal, reports every progress, then finishes exactly when the last progress exceeded 0.3 |
| PanGesture.CancelledPan | AppProject/_BasicSetup/UIViewControllerBasicTransitioningHandler.swift:238-262 | a cancelled pan never finishes the transition |
| PanGesture.PanWithoutMoves | AppProject/_BasicSetup/UIViewControllerBasicTransitioningHandler.swift:246-257 | began does not reset `shouldFinish`, so a pan that ends without moving finishes as the previous pan would have |
| PanGesture.Interactor.constructor | AppProject/_BasicSetup/UIViewControllerBasicTransitioningHandler.swift:333-336 | both flags start false |
| PanGesture.Drive | AppProject/_BasicSetup/UIViewControllerBasicTransitioningHandler.swift:238-262 | the interactor's new flags and the effects are those of `Step` |
| PanGesture.AcrossIsOffScreen | AppProject/_BasicSetup/UIViewControllerBasicTransitioningHandler.swift:280-300 | a screen-sized frame moved one screen along an axis does not overlap the screen |
| BasicTransitioning.DirectionsInverse | AppProject/_BasicSetup/UIViewControllerBasicTransitioningHandler.swift:16-47 | `presentingDirection` and `dismissingDirection` undo each other, and each is injective |
| BasicTransitioning.PresentingOf | AppProject/_BasicSetup/UIViewControllerBasicTransitioningHandler.swift:16-29 | `presentingDirection`: each dismiss direction's counterpart; `DirectionsInverse` and `DirectionsOpposite` prove it is the inverse of `DismissingOf` with the opposite heading |
| BasicTransitioning.DismissingOf | AppProject/_BasicSetup/UIViewControllerBasicTransitioningHandler.swift:35-47 | `dismissingDirection`: each presenting direction's counterpart; `DirectionsInverse` and `DirectionsOpposite` prove it is the inverse of `PresentingOf` with the opposite heading |
| BasicTransitioning.DirectionsOpposite | AppProject/_BasicSetup/UIViewControllerBasicTransitioningHandler.swift:16-47 | a direction and its counterpart point opposite ways |
| BasicTransitioning.DismissHeading | AppProject/_BasicSetup/UIViewControllerBasicTransitioningHandler.swift:13-14 | every dismiss direction is one of the four axis unit vectors |
| BasicTransitioning.PresentingHeading | AppProject/_BasicSetup/UIViewControllerBasicTransitioningHandler.swift:32-33 | every presenting direction is one of the four axis unit vectors |
| BasicTransitioning.PresentingFrames | AppProject/_BasicSetup/UIViewControllerBasicTransitioningHandler.swift:280-323 | the initial frame has the screen size, sits one screen behind the view's motion and is off the screen; the presented frame is the screen at (0,0) |
| BasicTransitioning.InitialFrame | AppProject/_BasicSetup/UIViewControllerBasicTransitioningHandler.swift:280-300 | the presented view's starting frame, by direction; `PresentingFrames` proves it is screen-sized, one screen behind the motion and off screen |
| BasicTransitioning.PresentedFrame | AppProject/_BasicSetup/UIViewControllerBasicTransitioningHandler.swift:306-323 | the frame the presented view slides to; `PresentingFrames` proves it is the screen |
| BasicTransitioning.DismissFrames | AppProject/_BasicSetup/UIViewControllerBasicTransitioningHandler.swift:351-371 | the final frame has the screen size, sits one screen along the dismiss direction and is off the screen |
| BasicTransitioning.FinalFrame | AppProject/_BasicSetup/UIViewControllerBasicTransitioningHandler.swift:351-371 | the dismissed view's final frame, by direction; `DismissFrames` proves it is screen-sized, one screen along the heading and off screen |
| BasicTransitioning.LeavesWhereItCameIn | AppProject/_BasicSetup/UIViewControllerBasicTransitioningHandler.swift:280-371 | the dismissal for `p.dismissingDirection` ends on the frame the presentation from `p` started on |
| BasicTransitioning.Progress | AppProject/_BasicSetup/UIViewControllerBasicTransitioningHandler.swift:173-186 | the progress is in [0,1], and is the pan's movement along the dismissing heading divided by the view's extent that way whenever that movement lies between 0 and the extent |
| BasicTransitioning.ProgressTowardsExit | AppProject/_BasicSetup/UIViewControllerBasicTransitioningHandler.swift:173-186 | progress is positive exactly when the pan moves along the dismissing direction, is the share of the extent moved that way, is 1 exactly once it has moved the full extent, and exceeds 0.3 exactly when the pan has moved more than 30% of the extent |
| BasicTransitioning.Measures | AppProject/_BasicSetup/UIViewControllerBasicTransitioningHandler.swift:173-186 | one progress value per translation, each measured by `Progress` |
| BasicTransitioning.ReleasedPastThresholdFinishes | AppProject/_BasicSetup/UIViewControllerBasicTransitioningHandler.swift:173-262 | a pan that begins, moves through some translations and is released finishes the dismissal exactly when its last translation carried the view more than 30% of its extent towards the exit, and cancels it otherwise |
| BasicTransitioning.Handler.constructor | AppProject/_BasicSetup/UIViewControllerBasicTransitioningHandler.swift:104-110 | keeps the direction and duration; dismissal by gesture is off and no gesture is attached |
| BasicTransitioning.Handler.SetAllowDismissWithGesture | AppProject/_BasicSetup/UIViewControllerBasicTransitioningHandler.swift:94-102 | while the view controller is present, the gesture is attached exactly when the new flag is true |
| BasicTransitioning.Handler.AddDismissGesture | AppProject/_BasicSetup/UIViewControllerBasicTransitioningHandler.swift:134-147 | attaches the gesture when the view controller is present |
| BasicTransitioning.Handler.RemoveDismissGesture | AppProject/_BasicSetup/UIViewControllerBasicTransitioningHandler.swift:149-157 | detaches the gesture when the view controller is present |
| BasicTransitioning.Handler.ReleaseViewController | AppProject/_BasicSetup/UIViewControllerBasicTransitioningHandler.swift:87 | the weak view controller reference becomes nil; nothing else changes |
| BasicTransitioning.Handler.HandleGesture | AppProject/_BasicSetup/UIViewControllerBasicTransitioningHandler.swift:159-170 | with a view controller present, the interactor and effects follow `Step` on the measured progress; otherwise nothing changes |
| BasicTransitioning.Handler.AnimationControllerForPresented | AppProject/_BasicSetup/UIViewControllerBasicTransitioningHandler.swift:113-115 | a presenting animator with the handler's direction and duration |
| BasicTransitioning.Handler.AnimationControllerForDismissed | AppProject/_BasicSetup/UIViewControllerBasicTransitioningHandler.swift:117-123 | nil exactly when gesture dismissal is off; otherwise the dismissing direction and the same duration |
| BasicTransitioning.Handler.InteractionControllerForDismissal | AppProject/_BasicSetup/UIViewControllerBasicTransitioningHandler.swift:125-130 | the interactor exactly when gesture dismissal is on and a pan has started |
| BasicTransitioning.HandlerAnimatorsAgree | AppProject/_BasicSetup/UIViewControllerBasicTransitioningHandler.swift:113-123 | the dismiss animator a handler hands out ends where its presenting animator started |
| DismissGesture.Heading | AppProject/_BasicSetup/UIViewControllerDismissGestureHandler.swift:13-14 | every direction is an axis unit vector |
| DismissGesture.Progress | AppProject/_BasicSetup/UIViewControllerDismissGestureHandler.swift:95-108 | the progress, dispatched on the handler's own direction, is in [0,1], and is the pan's movement along that direction divided by the view's extent whenever that movement lies between 0 and the extent |
| DismissGesture.ProgressTowardsExit | AppProject/_BasicSetup/UIViewControllerDismissGestureHandler.swift:95-158 | progress is positive exactly for a move along the direction, is the share of the extent moved, is 1 exactly once it covers the extent, and exceeds 0.3 exactly when the move exceeds 30% of the extent |
| DismissGesture.DismissFrames | AppProject/_BasicSetup/UIViewControllerDismissGestureHandler.swift:214-234 | the final frame is (0,-h), (w,0), (-w,0) or (0,h) by direction, has the screen size and is off the screen |
| DismissGesture.FinalFrame | AppProject/_BasicSetup/UIViewControllerDismissGestureHandler.swift:214-234 | the dismissed view's final frame for this file's directions; `DismissFrames` proves it is screen-sized, one screen along the heading and off screen |
| DismissGesture.Handler.constructor | AppProject/_BasicSetup/UIViewControllerDismissGestureHandler.swift:58-64 | keeps the direction and duration and attaches the pan gesture at once |
| DismissGesture.Handler.AddDragDownGesture | AppProject/_BasicSetup/UIViewControllerDismissGestureHandler.swift:67-79 | attaches the gesture when the view controller is present |
| DismissGesture.Handler.ReleaseViewController | AppProject/_BasicSetup/UIViewControllerDismissGestureHandler.swift:44 | the weak view controller reference becomes nil; nothing else changes |
| DismissGesture.Handler.HandleGesture | AppProject/_BasicSetup/UIViewControllerDismissGestureHandler.swift:81-92 | with a view controller present, the interactor and effects follow `Step` on the measured progress; otherwise nothing changes |
| DismissGesture.Handler.AnimationControllerForDismissed | AppProject/_BasicSetup/UIViewControllerDismissGestureHandler.swift:186-188 | always an animator with the handler's direction and duration |
| DismissGesture.Handler.InteractionControllerForDismissal | AppProject/_BasicSetup/UIViewControllerDismissGestureHandler.swift:190-192 | the interactor exactly when a pan has started |
| TransitionAgreement.Convert | AppProject/_BasicSetup/UIViewControllerDismissGestureHandler.swift:13-14 | the two files' dismiss directions correspond with equal headings |
| TransitionAgreement.HandlersAgree | AppProject/_BasicSetup/UIViewControllerDismissGestureHandler.swift:95-234 | a basic handler presenting from `p` measures progress and places the dismissed view exactly as a dismiss-gesture handler for `p.dismissingDirection` |
| NetworkReachability.InternetReaction | AppProject/_BasicSetup/AppNetworkReachability.swift:78-98 | the first event fires nothing; afterwards not reachable fires offline, unknown fires the network error, and a reachable status fires back-online exactly when it differs from the last one |
| NetworkReachability.HostReaction | AppProject/_BasicSetup/AppNetworkReachability.swift:107-124 | fires only when both a host and an internet status were recorded; an offline internet fires offline; otherwise host not reachable and unknown fire their callbacks and reachable fires nothing; never back-online |
| NetworkReachability.InternetRunIsPairwise | AppProject/_BasicSetup/AppNetworkReachability.swift:75-102 | the callbacks fired over a series of events are those of each event against the event before it |
| NetworkReachability.InternetFirstEventsExamples | AppProject/_BasicSetup/AppNetworkReachability.swift:78-100 | a first event fires nothing; Wi-Fi then WWAN fires back-online; repeated WWAN fires nothing; repeated not-reachable fires offline each time |
| NetworkReachability.Subscriber.OnInternetStatus | AppProject/_BasicSetup/AppNetworkReachability.swift:75-102 | fires `InternetReaction` against the last status and records the event |
| NetworkReachability.Subscriber.OnHostStatus | AppProject/_BasicSetup/AppNetworkReachability.swift:104-128 | fires `HostReaction` against the last statuses and records the host event |
| NetworkReachability.Shown | AppProject/_BasicSetup/AppNetworkReachability.swift:178-204 | nothing happens while a banner is flagged or a view exists; otherwise a visible banner with the given tint and message, font 16, `adjustsFontSizeToFitWidth` on and scale 0.5 is created and the flag is set |
| NetworkReachability.Hidden | AppProject/_BasicSetup/AppNetworkReachability.swift:206-210 | the view is nil and the flag false |
| NetworkReachability.ShowHideLaws | AppProject/_BasicSetup/AppNetworkReachability.swift:178-210 | showing twice is showing once; hiding after showing is hiding; after hiding, showing always creates the banner |
| NetworkReachability.TwoBannersAtOnce | AppProject/_BasicSetup/AppNetworkReachability.swift:165-209 | because the flag is shared, hiding on one view controller lets a second banner show while the first is still up |
| NetworkReachability.BannerHost.ShowNotificationView | AppProject/_BasicSetup/AppNetworkReachability.swift:178-204 | the state becomes `Shown` of the old state |
| NetworkReachability.BannerHost.ShowOfflineNotificationView | AppProject/_BasicSetup/AppNetworkReachability.swift:170-172 | shows the localized "k_device_is_offline" message with the red tint |
| NetworkReachability.BannerHost.ShowHostNotReachableNotificationView | AppProject/_BasicSetup/AppNetworkReachability.swift:174-176 | shows the localized "k_could_not_connect_to_server" message with the red tint |
| NetworkReachability.BannerHost.HideNetworkStatusNotificationView | AppProject/_BasicSetup/AppNetworkReachability.swift:206-210 | the state becomes `Hidden` of the old state |
| NetworkReachability.BannerHost.Tap | AppProject/_BasicSetup/AppNetworkReachability.swift:194-199 | a tap hides the banner exactly when it was created to hide on tap |
| AppError.ErrorDomain | AppProject/_BasicSetup/AppErrorProtocol.swift:12 | the fixed prefix followed by the source file's path |
| AppError.EqualIsEquivalence | AppProject/_BasicSetup/AppErrorProtocol.swift:61-94 | two errors are `==` exactly when each `is` of the other's kind; `==` is reflexive, symmetric and transitive |
| AppError.Is | AppProject/_BasicSetup/AppErrorProtocol.swift:62-64 | `is(errorKind:)`: the kind's code equals the error's code; `EqualIsEquivalence` and `ErrorCode` state its properties |
| AppError.Equal | AppProject/_BasicSetup/AppErrorProtocol.swift:92-94 | `==` on app errors compares codes only; `EqualIsEquivalence` proves it is mutual `is` and an equivalence |
| AppError.ErrorCode | AppProject/_BasicSetup/AppErrorProtocol.swift:76-78 | the error `is` of the kind whose code it reports |
| AppError.ErrorUserInfo | AppProject/_BasicSetup/AppErrorProtocol.swift:81-84 | exactly two keys: the description, and the localized description or "" |
| AppError.RecoveryOption | AppProject/_BasicSetup/AppErrorProtocol.swift:88-90 | always nil |
| AppError.ParseIntString | AppProject/_BasicSetup/AppErrorProtocol.swift:51-57 | an integer printed as decimal reads back as itself |
| AppError.DescriptionLaws | AppProject/_BasicSetup/AppErrorProtocol.swift:51-57 | a missing file and line print as "-" and 0; the description opens with the domain and ends with the line, which reads back |
| AppError.Description | AppProject/_BasicSetup/AppErrorProtocol.swift:51-57 | the one-line `description` (and `debugDescription`): domain, code, description, file or "-", line or 0; `DescriptionLaws` states its properties |
| ErrorRegister.KindOf | AppProject/_BasicSetup/AppErrorRegister.swift:14-21 | a kind found for a raw value has that raw value |
| ErrorRegister.RawValue | AppProject/_BasicSetup/AppErrorRegister.swift:14-21 | the kinds' raw values 10001, 10002 and 10000; `KindRawValues` proves them distinct and recoverable |
| ErrorRegister.KindRawValues | AppProject/_BasicSetup/AppErrorRegister.swift:14-21 | the raw values 10001, 10002 and 10000 are distinct, and each kind is recovered from its raw value |
| ErrorRegister.Facts | AppProject/_BasicSetup/AppErrorRegister.swift:23-83 | the error's file and line are passed on and its `errorCode` is its `code` |
| ErrorRegister.LocalizedDescription | AppProject/_BasicSetup/AppErrorRegister.swift:36-80 | every networking error has a localized description |
| ErrorRegister.ErrorsOfTheirKind | AppProject/_BasicSetup/AppErrorRegister.swift:28-77 | empty-response and wrong-type errors are of their kind wherever raised; an unknown error's code is its status code or 10000 and its description its message or "Unknown error" |
| ErrorRegister.Code | AppProject/_BasicSetup/AppErrorRegister.swift:28-73 | `code` of each error: the kind's raw value, or an unknown error's status code when it has one; `ErrorsOfTheirKind` and `StatusCodeCanPassForKind` state its properties |
| ErrorRegister.ErrorDescription | AppProject/_BasicSetup/AppErrorRegister.swift:32-77 | `errorDescription` of each error; `ErrorsOfTheirKind` states the unknown error's fallback on "Unknown error" |
| ErrorRegister.EqualityByKind | AppProject/_BasicSetup/AppErrorRegister.swift:28-51 | errors of the two fixed kinds are `==` exactly when they are of the same kind |
| ErrorRegister.StatusCodeCanPassForKind | AppProject/_BasicSetup/AppErrorRegister.swift:71-73 | an unknown error with status code 10001 `is` an empty response and is `==` to one |
| Color.Channels | AppProject/_BasicSetup/UIColor+App.swift:17-19 | each channel is a byte |
| Color.ThemeChannels | AppProject/_BasicSetup/UIColor+App.swift:24-26 | the theme 0x005BAA is (0, 91, 170) |
| Color.LowBitsOnly | AppProject/_BasicSetup/UIColor+App.swift:18 | the channels depend on the low 24 bits only |
| Color.PackChannels | AppProject/_BasicSetup/UIColor+App.swift:17-19 | a 24-bit value equals red·65536 + green·256 + blue, and three bytes unpack to themselves |
| AppConstants.NormalisedPath | AppProject/_BasicSetup/AppConstants.swift:20-24 | starts with "/"; a path with one is kept; any other gets exactly one "/" in front |
| AppConstants.NormalisationIdempotent | AppProject/_BasicSetup/AppConstants.swift:21-24 | normalising twice is normalising once |
| AppConstants.UriShape | AppProject/_BasicSetup/AppConstants.swift:15-28 | the string is "https://facebook.com/api" then the normalised path; it ends with the path; its length is the base plus the path plus 0 or 1 |
| AppConstants.UriString | AppProject/_BasicSetup/AppConstants.swift:20-26 | the string `uri(path:)` hands to `URL(string:)`; `UriShape` states its layout |
| StringUtil.Length | AppProject/_BasicSetup/String+Util.swift:15-17 | the number of characters |
| StringUtil.SubstringFrom | AppProject/_BasicSetup/String+Util.swift:19-26 | the characters from the offset on, for an offset within 0 and the length |
| StringUtil.SubstringTo | AppProject/_BasicSetup/String+Util.swift:28-31 | the first characters up to the offset, for an offset within 0 and the length |
| StringUtil.SubstringWith | AppProject/_BasicSetup/String+Util.swift:33-37 | hi − lo characters starting at lo |
| StringUtil.SubstringRoundTrip | AppProject/_BasicSetup/String+Util.swift:15-31 | the part before and the part after an offset glue back to the string; their lengths add up |
| StringUtil.SubstringWithComposes | AppProject/_BasicSetup/String+Util.swift:28-37 | a range is the prefix up to hi without its first lo characters; the full range is the string |
| StringUtil.FirstIndex | AppProject/_BasicSetup/String+Util.swift:45 | the recogniser's helper that locates the '@' (the Swift code has no index search of its own): the first position of a character, or none exactly when it does not occur |
| StringUtil.LastIndex | AppProject/_BasicSetup/String+Util.swift:45 | the recogniser's helper that locates the domain's final '.' (the Swift code has no index search of its own): the last position of a character, or none exactly when it does not occur |
| StringUtil.EmailRecogniserCorrect | AppProject/_BasicSetup/String+Util.swift:44-48 | the recogniser accepts exactly the strings of the pattern's language |
| StringUtil.IsEmailAddress | AppProject/_BasicSetup/String+Util.swift:44-48 | `isEmailAddress`: splits at the first '@' and the domain's last '.'; `EmailRecogniserCorrect` proves it accepts exactly the pattern's language |
| StringUtil.RecognisedIsShaped | AppProject/_BasicSetup/String+Util.swift:44-48 | every accepted string splits into local part, '@', domain, '.' and letters |
| StringUtil.ShapedIsRecognised | AppProject/_BasicSetup/String+Util.swift:44-48 | every string so split is accepted |
| StringUtil.EmailConsequences | AppProject/_BasicSetup/String+Util.swift:45 | an accepted string has exactly one '@' with something before it and a '.' after it, and ends in two letters |
| StringUtil.EmailAccepted | AppProject/_BasicSetup/String+Util.swift:45 | "jo@mail.com" is accepted |
| StringUtil.EmailAcceptsPunctuation | AppProject/_BasicSetup/String+Util.swift:45 | "..@-.ab" is accepted: the classes allow leading dots and dashes |
| StringUtil.EmailRefusesShortEnding | AppProject/_BasicSetup/String+Util.swift:45 | a one-letter ending is refused |
| StringUtil.EmailRefusesTwoAts | AppProject/_BasicSetup/String+Util.swift:45 | a doubled '@' is refused |
| StringUtil.EmailRefusesEmptyLocalPart | AppProject/_BasicSetup/String+Util.swift:45 | an empty part before the '@' is refused |
| StringUtil.EmailRefusesDigitInEnding | AppProject/_BasicSetup/String+Util.swift:45 | a digit in the ending is refused |
| FontCache.SameEntry | AppProject/_BasicSetup/UIFont+App.swift:45-47 | two keys are equal exactly when name and size are both equal |
| FontCache.AppFontStep | AppProject/_BasicSetup/UIFont+App.swift:29-41 | a hit returns the cached font and keeps the cache; a miss builds the named font or the system font and inserts only that key; afterwards the key maps to the result |
| FontCache.StepKeepsEntries | AppProject/_BasicSetup/UIFont+App.swift:22-41 | the cache never shrinks or changes an entry; its keys afterwards are the old keys plus the requested one |
| FontCache.RunIsMemo | AppProject/_BasicSetup/UIFont+App.swift:22-41 | over any series of calls, earlier entries survive, each call returns what the final cache holds for its key, and equal requests return the same font |
| FontCache.Fonts.AppFont | AppProject/_BasicSetup/UIFont+App.swift:29-41 | the returned font and the new cache are those of `AppFontStep` |

## Left out

- Framework side effects are left out: the system notification center's delivery, UIKit animations, view hierarchy changes, `print` and `log` output, and Alamofire's managers. The model records them as effects or takes them as parameters.
- Localisation (`localized`) is a `string -> string` parameter. Font construction (`UIFont(name:size:)`, `systemFont`) is two function parameters.
- Observer equality and registration equality in `AppNotificationCenter` compare string hashes (`"\(observer)\(selector)".hashValue` and `"\(name)".hashValue`). The model compares the (observer, selector) pair and the name directly, so hash collisions are not modelled.
- The `print` of the posted object in `post` is not modelled.
- Geometry is modelled with exact reals, not `CGFloat`: floating-point rounding and NaN are not modelled.
- The progress functions require a non-empty view (`width > 0` and `height > 0`). The source divides by the dimension and would produce infinity or NaN for an empty view.
- `UIViewControllerDismissGestureHandler.swift` and `UIViewControllerBasicTransitioningHandler.swift` declare types with the same names (`UIViewControllerDismissGestureDirection`, the interactor and the dismiss animator). The model keeps each file in its own module.
- UIKit's handling of a duplicate `addTarget` or `addGestureRecognizer` is not modelled; the model records whether the gesture is attached.
- The animators' `animateTransition` bodies are modelled only through their frames and durations.
- The reachability closures capture `self` weakly. The model assumes the subscriber stays alive.
- The 2-second check after subscribing (`asyncAfter`), `subscribeToNetworkReachabilityChange`'s manager setup and `unsubscribeFromNetworkReachabilityChange` are not modelled: they are timers and Alamofire calls.
- `kErrorDomain` interpolates `#file`, which the compiler fills with the build machine's path. The model uses the repository path of `AppErrorProtocol.swift`.
- `"\(expected)"` and `"\(got)"` print Swift metatype names. The model takes those names as strings.
- `description` and `debugDescription` build the same text. Both are modelled by `AppError.Description`.
- `StringUtil.Length`: a Swift `Character` is a grapheme cluster. The model treats each `char` as one character, so Unicode segmentation is not modelled.
- `isEmailAddress` is modelled as its own recogniser of the pattern's language. The NSPredicate/ICU regular-expression engine itself is not modelled.
- `UIColor(red:green:blue:)` scaling by 1/255 and `UIColor.random` (which uses `arc4random`) are not modelled; only the byte extraction is.
- `URL(string:)!` parsing is not modelled; `AppConstants.UriShape` is about the string handed to it. `Undefined.kInt` and `Undefined.kString` are constants only.
- The `hashValue` of `CacheEntry` is not modelled: the cache is a Dafny map keyed by value equality, which `FontCache.SameEntry` shows is the declared `==`. The main-thread `assert` in the cache's `didSet` is not modelled.
- NotificationRegistry.Center.RemoveFromRegistration: follows the corrected program. In `removePost(name, observer:)` on a registered name it forwards the removal to the system center, which the Swift branch does not; the as-written calls are `NotificationRegistry.RemovePostCallsAsWritten`.
- NotificationRegistry.Center.RemovePost: forwards the corrected `RemovePostCalls` rather than the source's `RemovePostCallsAsWritten`, for the reason on the line above; its effects on the table, the log and the registrations are as written.
- StringUtil.SubstringFrom: the runtime trap of `index(from:)` for an offset outside `0...length` becomes a precondition; the trap itself is not modelled.
- StringUtil.SubstringTo: the same trap becomes the same precondition.
- StringUtil.SubstringWith: the same trap on either end of the range becomes a precondition, which also excludes `lo > hi`, a range Swift refuses to form.
- `AppCacher.swift`, `AppStandardDefaults.swift`, `AppThirdPartyLibs.swift`, `EasyGeometry.swift` and `UI3DTouchPreviewableWrapper.swift` are not part of this model. They are thin wrappers over UserDefaults, third-party setup, CoreGraphics arithmetic and 3D Touch APIs.

## Findings

| source | as written | input that shows it | evidently intended | confidence | as-written member | corrected member |
|---|---|---|---|---|---|---|
| AppProject/_BasicSetup/AppNotificationCenter.swift:162-172 | `removePost(name, observer: o)` on a registered name removes `o` from the registry but never calls `NotificationCenter.default.removeObserver`. The other two branches do forward the removal. | Observe `NotDefined` with observer 1 and selector `didReceive:`, then call `removePost(.notDefined, observer: that observer)`. The registry forgets the registration, but the system center still holds the observation and goes on delivering. | Forward `removeObserver(o.observer, name:, object:)` in this branch too, as the unregistered-name branch does. | medium, not executed | NotificationRegistry.RemovePostAsWrittenKeepsDelivering | NotificationRegistry.RemovePostStopsDelivering |
