/**
 * The Observer pattern of core/patterns/observer.py: a subject holding an ordered list
 * of observers, three observers that turn events into notifications for one role each,
 * and the process-wide default subject. An observer's database writes are its returned
 * notification; an observer that raises is listed in `failing` and contributes nothing,
 * while the others still run.
 */
module Observer {
  import opened Wrappers
  import opened Text
  import opened Models

  /** The `tipo_evento` values the application emits. */
  datatype EventKind =
    | EstadoCambiado
    | Asignacion
    | SolicitudCambio
    | Atraso
    | BitacoraRegistrada
    | ControlCalidad
    | OtFinalizada

  /**
   * The event dictionary; an absent key is `None`. `message` is the `mensaje` key and
   * `result` the `resultado` key.
   */
  datatype Event = Event(kind: EventKind, order: Option<Order>, sender: Option<Profile>,
                         previousState: Option<string>, newState: Option<string>,
                         message: Option<string>, result: Option<string>)

  /** An event with only the order, kind and issuer keys. */
  function SimpleEvent(kind: EventKind, order: Option<Order>, sender: Option<Profile>): (e: Event)
    ensures e.kind == kind && e.order == order && e.sender == sender
    ensures e.previousState == None && e.newState == None && e.message == None && e.result == None
  {
    Event(kind, order, sender, None, None, None, None)
  }

  datatype ObserverKind = MechanicObserver | ManagerObserver | ReceptionObserver

  /** An observer object; Python compares observers by identity, modelled by `ident`. */
  datatype Observer = Observer(ident: nat, kind: ObserverKind)

  /** The role each observer writes to. */
  function ObserverRole(k: ObserverKind): Role {
    match k
    case MechanicObserver => Mecanico
    case ManagerObserver => EncargadoTaller
    case ReceptionObserver => Recepcionista
  }

  // ---------------------------------------------------------------- subject

  predicate NoDuplicates<T(==)>(s: seq<T>) {
    forall i, j :: 0 <= i < j < |s| ==> s[i] != s[j]
  }

  /** `attach`: append the observer unless it is already registered. */
  function Attach(observers: seq<Observer>, o: Observer): (r: seq<Observer>)
    ensures observers <= r && o in r
    ensures forall x :: x in r <==> x in observers || x == o
    ensures |r| <= |observers| + 1
  {
    if o in observers then observers else observers + [o]
  }

  /** Attaching twice is attaching once. */
  lemma AttachIdempotent(observers: seq<Observer>, o: Observer)
    ensures Attach(Attach(observers, o), o) == Attach(observers, o)
    ensures o in observers ==> Attach(observers, o) == observers
  {
  }

  /** A registry built by `attach` never holds an observer twice. */
  lemma AttachKeepsNoDuplicates(observers: seq<Observer>, o: Observer)
    requires NoDuplicates(observers)
    ensures NoDuplicates(Attach(observers, o))
  {
  }

  /** The position of the first occurrence of `o`. */
  function FirstIndex(observers: seq<Observer>, o: Observer): (i: nat)
    requires o in observers
    ensures i < |observers| && observers[i] == o && o !in observers[..i]
    decreases |observers|
  {
    if observers[0] == o then 0
    else
      var k := FirstIndex(observers[1..], o);
      assert observers[..k + 1] == [observers[0]] + observers[1..][..k];
      k + 1
  }

  /** `detach`: `list.remove` (the first occurrence goes), guarded by membership. */
  function Detach(observers: seq<Observer>, o: Observer): (r: seq<Observer>)
    ensures o !in observers ==> r == observers
    ensures o in observers ==> |r| == |observers| - 1
    ensures o in observers ==>
              exists i :: 0 <= i < |observers| && observers[i] == o && o !in observers[..i] &&
                          r == observers[..i] + observers[i + 1..]
    ensures forall x :: x in observers && x != o ==> x in r
    ensures forall x :: x in r ==> x in observers
  {
    if o in observers then
      var i := FirstIndex(observers, o);
      assert observers == observers[..i] + [o] + observers[i + 1..];
      observers[..i] + observers[i + 1..]
    else observers
  }

  /** Detaching from a duplicate-free registry removes the observer altogether. */
  lemma DetachRemoves(observers: seq<Observer>, o: Observer)
    requires NoDuplicates(observers)
    ensures o !in Detach(observers, o)
    ensures NoDuplicates(Detach(observers, o))
  {
    if o in observers {
      var i := FirstIndex(observers, o);
      var r := Detach(observers, o);
      assert r == observers[..i] + observers[i + 1..];
      forall j | 0 <= j < |r| ensures r[j] != o {
        if j < i {
          assert r[j] == observers[j];
        } else {
          assert r[j] == observers[j + 1];
        }
      }
      forall a, b | 0 <= a < b < |r| ensures r[a] != r[b] {
        var a' := if a < i then a else a + 1;
        var b' := if b < i then b else b + 1;
        assert r[a] == observers[a'] && r[b] == observers[b'];
      }
    }
  }

  /** Attaching a new observer and detaching it again restores the registry. */
  lemma AttachThenDetach(observers: seq<Observer>, o: Observer)
    requires o !in observers
    ensures Detach(Attach(observers, o), o) == observers
  {
    var a := observers + [o];
    var i := FirstIndex(a, o);
    if i < |observers| {
      assert false;
    }
    assert a[..i] == observers;
  }

  // ---------------------------------------------------------------- observers

  /** "OT #<id>" as the messages print it. */
  function OrderRef(o: Order): string {
    "OT #" + NatToString(o.id)
  }

  /** The text a mechanic receives when an order is assigned to them. */
  function AssignedMessage(o: Order): string {
    "Se le ha asignado la " + OrderRef(o) + "."
  }

  /** The text a mechanic receives when an order's quality control is recorded. */
  function QcMessage(o: Order, result: string): string {
    "Control de calidad " + result + " para la " + OrderRef(o) + "."
  }

  /** The text the shop manager receives for an overdue order. */
  function DelayMessage(o: Order): string {
    "La " + OrderRef(o) + " está atrasada."
  }

  /** The first mechanic profile whose account carries the given first and last names. */
  function FindMechanicProfile(profiles: seq<Profile>, first: string, last: string): (r: Option<Profile>)
    ensures r.Some? ==> r.value in profiles && r.value.role == Mecanico &&
                        r.value.account.firstName == first && r.value.account.lastName == last
    ensures r.None? <==> forall p :: p in profiles ==>
                           !(p.role == Mecanico && p.account.firstName == first && p.account.lastName == last)
    decreases |profiles|
  {
    if profiles == [] then None
    else
      var p := profiles[0];
      if p.role == Mecanico && p.account.firstName == first && p.account.lastName == last then Some(p)
      else
        assert forall q :: q in profiles ==> q == p || q in profiles[1..];
        FindMechanicProfile(profiles[1..], first, last)
  }

  /**
   * `_obtener_perfil_mecanico`: split the mechanic's name once on whitespace; with two
   * parts, the first mechanic profile named first-part / rest; otherwise none.
   */
  function MechanicProfile(profiles: seq<Profile>, m: Mechanic): (r: Option<Profile>)
    ensures r.Some? ==> r.value in profiles && r.value.role == Mecanico
    ensures r.Some? ==> |SplitOnce(m.name)| == 2 &&
                        r.value.account.firstName == SplitOnce(m.name)[0] &&
                        r.value.account.lastName == SplitOnce(m.name)[1]
  {
    var parts := SplitOnce(m.name);
    if |parts| == 2 then FindMechanicProfile(profiles, parts[0], parts[1]) else None
  }

  /** A mechanic whose name is a single word (or blank) never resolves to a profile. */
  lemma OneWordNameUnresolved(profiles: seq<Profile>, m: Mechanic)
    requires !HasTwoWords(m.name)
    ensures MechanicProfile(profiles, m) == None
  {
    SplitOnceTwoWords(m.name);
  }

  /** Resolution succeeds when a profile carries the name's first word and remainder. */
  lemma TwoWordNameResolved(profiles: seq<Profile>, m: Mechanic, p: Profile)
    requires HasTwoWords(m.name) && p in profiles && p.role == Mecanico
    requires p.account.firstName == SplitOnce(m.name)[0]
    requires p.account.lastName == SplitOnce(m.name)[1]
    ensures MechanicProfile(profiles, m).Some?
  {
    SplitOnceTwoWords(m.name);
  }

  /** The text a mechanic receives when an order changes state. */
  function StateChangedMessage(o: Order, newState: string): string {
    "La " + OrderRef(o) + " cambió a estado: " + newState + "."
  }

  /** `MecanicoObserver.update`. */
  function MechanicUpdate(e: Event, profiles: seq<Profile>, now: Instant): (r: Option<Notification>)
    ensures r.Some? ==> e.order.Some? && e.order.value.mechanic.Some? &&
                        MechanicProfile(profiles, e.order.value.mechanic.value).Some? &&
                        r.value.recipient == Some(MechanicProfile(profiles, e.order.value.mechanic.value).value.id)
    ensures r.Some? ==> e.kind in {Asignacion, ControlCalidad, EstadoCambiado}
    ensures r.Some? ==> r.value.kind == MensajeGeneral && r.value.orderId == Some(e.order.value.id) &&
                        r.value.sender == ProfileId(e.sender) && !r.value.read && r.value.createdAt == now
    ensures r.Some? && e.kind == Asignacion ==> r.value.message == AssignedMessage(e.order.value)
    ensures r.Some? && e.kind == ControlCalidad ==> r.value.message == QcMessage(e.order.value, e.result.GetOr(""))
    ensures r.Some? && e.kind == EstadoCambiado ==> r.value.message == StateChangedMessage(e.order.value, e.newState.GetOr(""))
  {
    if e.order.None? || e.order.value.mechanic.None? then None
    else
      var o := e.order.value;
      match MechanicProfile(profiles, o.mechanic.value)
      case None => None
      case Some(p) =>
        var msg :=
          match e.kind
          case Asignacion => Some(AssignedMessage(o))
          case ControlCalidad => Some(QcMessage(o, e.result.GetOr("")))
          case EstadoCambiado => Some(StateChangedMessage(o, e.newState.GetOr("")))
          case _ => None;
        match msg
        case None => None
        case Some(m) => Some(Notification(MensajeGeneral, Some(o.id), ProfileId(e.sender), Some(p.id), m, now, false))
  }

  /** The text of a change request whose event carries no message of its own. */
  function ChangeRequestDefault(o: Order): string {
    "Solicitud de cambio para la " + OrderRef(o) + "."
  }

  /** The text the shop manager receives for a new log entry. */
  function LogMessage(o: Order): string {
    "Se registró una nueva bitácora para la " + OrderRef(o) + "."
  }

  /** The text the receptionist receives when an order is finished. */
  function FinishedMessage(o: Order): string {
    "La " + OrderRef(o) + " ha sido finalizada."
  }

  /** `EncargadoObserver.update`. */
  function ManagerUpdate(e: Event, profiles: seq<Profile>, now: Instant): (r: Option<Notification>)
    ensures r.Some? ==> e.order.Some? && FirstWithRole(profiles, EncargadoTaller).Some? &&
                        r.value.recipient == Some(FirstWithRole(profiles, EncargadoTaller).value.id)
    ensures r.Some? ==> e.kind in {EventKind.SolicitudCambio, Atraso, BitacoraRegistrada}
    ensures r.Some? ==> r.value.orderId == Some(e.order.value.id) && r.value.sender == ProfileId(e.sender) &&
                        !r.value.read && r.value.createdAt == now
    ensures r.Some? && e.kind == EventKind.SolicitudCambio && e.message.Some? ==> r.value.message == e.message.value
    ensures r.Some? && e.kind == EventKind.SolicitudCambio && e.message.None? ==>
              r.value.message == ChangeRequestDefault(e.order.value)
    ensures r.Some? && e.kind == Atraso ==> r.value.message == DelayMessage(e.order.value)
    ensures r.Some? && e.kind == BitacoraRegistrada ==> r.value.message == LogMessage(e.order.value)
  {
    if e.order.None? then None
    else
      var o := e.order.value;
      match FirstWithRole(profiles, EncargadoTaller)
      case None => None
      case Some(p) =>
        var out: Option<(NotifType, string)> :=
          match e.kind
          case SolicitudCambio =>
            Some((NotifType.SolicitudCambio, e.message.GetOr(ChangeRequestDefault(o))))
          case Atraso => Some((AtrasoTrabajo, DelayMessage(o)))
          case BitacoraRegistrada => Some((MensajeGeneral, LogMessage(o)))
          case _ => None;
        match out
        case None => None
        case Some((t, m)) => Some(Notification(t, Some(o.id), ProfileId(e.sender), Some(p.id), m, now, false))
  }

  /** `RecepcionistaObserver.update`. */
  function ReceptionUpdate(e: Event, profiles: seq<Profile>, now: Instant): (r: Option<Notification>)
    ensures r.Some? <==> e.order.Some? && FirstWithRole(profiles, Recepcionista).Some? && e.kind == OtFinalizada
    ensures r.Some? ==> r.value.kind == MensajeGeneral && r.value.orderId == Some(e.order.value.id) &&
                        r.value.recipient == Some(FirstWithRole(profiles, Recepcionista).value.id) &&
                        r.value.sender == ProfileId(e.sender) && !r.value.read && r.value.createdAt == now
    ensures r.Some? ==> r.value.message == FinishedMessage(e.order.value)
  {
    if e.order.None? then None
    else
      match FirstWithRole(profiles, Recepcionista)
      case None => None
      case Some(p) =>
        if e.kind == OtFinalizada then
          Some(Notification(MensajeGeneral, Some(e.order.value.id), ProfileId(e.sender), Some(p.id),
                            FinishedMessage(e.order.value), now, false))
        else None
  }

  /** `observer.update(event)`, dispatched on the observer's class. */
  function Update(o: Observer, e: Event, profiles: seq<Profile>, now: Instant): Option<Notification> {
    match o.kind
    case MechanicObserver => MechanicUpdate(e, profiles, now)
    case ManagerObserver => ManagerUpdate(e, profiles, now)
    case ReceptionObserver => ReceptionUpdate(e, profiles, now)
  }

  // ---------------------------------------------------------------- routing

  /** Where a notification goes: its type and the role of its recipient. */
  datatype Route = Route(notifType: NotifType, role: Role)

  /**
   * The routing table the three observers implement between them: every event kind has
   * exactly one destination.
   */
  function RouteOf(k: EventKind): Route {
    match k
    case EstadoCambiado => Route(MensajeGeneral, Mecanico)
    case Asignacion => Route(MensajeGeneral, Mecanico)
    case ControlCalidad => Route(MensajeGeneral, Mecanico)
    case SolicitudCambio => Route(NotifType.SolicitudCambio, EncargadoTaller)
    case Atraso => Route(AtrasoTrabajo, EncargadoTaller)
    case BitacoraRegistrada => Route(MensajeGeneral, EncargadoTaller)
    case OtFinalizada => Route(MensajeGeneral, Recepcionista)
  }

  /**
   * Every notification an observer writes follows the routing table: the event's route
   * names the observer's role and the notification's type, and the recipient is a
   * profile of that role.
   */
  lemma UpdateFollowsRoute(o: Observer, e: Event, profiles: seq<Profile>, now: Instant)
    requires Update(o, e, profiles, now).Some?
    ensures var n := Update(o, e, profiles, now).value;
            RouteOf(e.kind).role == ObserverRole(o.kind) && Delivers(n, e, profiles, now) &&
            exists p :: p in profiles && n.recipient == Some(p.id) && p.role == RouteOf(e.kind).role
  {
    var n := Update(o, e, profiles, now).value;
    match o.kind
    case MechanicObserver =>
      var p := MechanicProfile(profiles, e.order.value.mechanic.value).value;
      assert p in profiles && n.recipient == Some(p.id);
    case ManagerObserver =>
      var p := FirstWithRole(profiles, EncargadoTaller).value;
      assert p in profiles && n.recipient == Some(p.id);
    case ReceptionObserver =>
      var p := FirstWithRole(profiles, Recepcionista).value;
      assert p in profiles && n.recipient == Some(p.id);
  }

  /**
   * What every notification written for an event carries: the route's type, the event's
   * order and issuer, unread and stamped now; the recipient is the profile of the order's
   * mechanic or the first profile of the routed role; a change request keeps its text (or
   * gets the default one) and every other kind carries its fixed text.
   */
  predicate Delivers(n: Notification, e: Event, profiles: seq<Profile>, now: Instant) {
    e.order.Some? && n.kind == RouteOf(e.kind).notifType && n.orderId == Some(e.order.value.id) &&
    n.sender == ProfileId(e.sender) && !n.read && n.createdAt == now &&
    (RouteOf(e.kind).role == Mecanico ==>
       e.order.value.mechanic.Some? && MechanicProfile(profiles, e.order.value.mechanic.value).Some? &&
       n.recipient == Some(MechanicProfile(profiles, e.order.value.mechanic.value).value.id)) &&
    (RouteOf(e.kind).role != Mecanico ==>
       FirstWithRole(profiles, RouteOf(e.kind).role).Some? &&
       n.recipient == Some(FirstWithRole(profiles, RouteOf(e.kind).role).value.id)) &&
    (e.kind == EventKind.SolicitudCambio && e.message.Some? ==> n.message == e.message.value) &&
    (e.kind == EventKind.SolicitudCambio && e.message.None? ==> n.message == ChangeRequestDefault(e.order.value)) &&
    (e.kind == BitacoraRegistrada ==> n.message == LogMessage(e.order.value)) &&
    (e.kind == OtFinalizada ==> n.message == FinishedMessage(e.order.value)) &&
    (e.kind == Asignacion ==> n.message == AssignedMessage(e.order.value)) &&
    (e.kind == ControlCalidad ==> n.message == QcMessage(e.order.value, e.result.GetOr(""))) &&
    (e.kind == Atraso ==> n.message == DelayMessage(e.order.value)) &&
    (e.kind == EstadoCambiado ==> n.message == StateChangedMessage(e.order.value, e.newState.GetOr("")))
  }

  /** Whether the recipient the route names can be found for this event. */
  predicate RecipientResolves(e: Event, profiles: seq<Profile>) {
    e.order.Some? &&
    match RouteOf(e.kind).role
    case Mecanico => e.order.value.mechanic.Some? && MechanicProfile(profiles, e.order.value.mechanic.value).Some?
    case r => FirstWithRole(profiles, r).Some?
  }

  /** Conversely, the observer of the routed role writes once its recipient resolves. */
  lemma RoutedObserverWrites(o: Observer, e: Event, profiles: seq<Profile>, now: Instant)
    requires ObserverRole(o.kind) == RouteOf(e.kind).role && RecipientResolves(e, profiles)
    ensures Update(o, e, profiles, now).Some?
  {
  }

  /** An observer whose role is not the route's writes nothing for the event. */
  lemma UnroutedObserverSilent(o: Observer, e: Event, profiles: seq<Profile>, now: Instant)
    requires ObserverRole(o.kind) != RouteOf(e.kind).role
    ensures Update(o, e, profiles, now) == None
  {
    if Update(o, e, profiles, now).Some? {
      UpdateFollowsRoute(o, e, profiles, now);
    }
  }

  // ---------------------------------------------------------------- notify

  /** What a notification round sees: the registry, which observers raise, the profiles and the clock. */
  datatype Hub = Hub(observers: seq<Observer>, failing: set<nat>, profiles: seq<Profile>, now: Instant)

  function Written(o: Observer, failing: set<nat>, e: Event, profiles: seq<Profile>, now: Instant): seq<Notification> {
    if o.ident in failing then []
    else match Update(o, e, profiles, now)
      case None => []
      case Some(n) => [n]
  }

  /** `notify` over a list of observers: each in order, a raising one skipped. */
  function NotifyAll(observers: seq<Observer>, failing: set<nat>, e: Event, profiles: seq<Profile>, now: Instant): (r: seq<Notification>)
    ensures |r| <= |observers|
    decreases |observers|
  {
    if observers == [] then []
    else Written(observers[0], failing, e, profiles, now) + NotifyAll(observers[1..], failing, e, profiles, now)
  }

  /** `subject.notify(event)`: the notifications written, in observer order. */
  function Notify(h: Hub, e: Event): (r: seq<Notification>)
    ensures |r| <= |h.observers|
  {
    NotifyAll(h.observers, h.failing, e, h.profiles, h.now)
  }

  /** Notifying a concatenated registry writes the first part's notifications first. */
  lemma {:induction false} NotifyAllAppend(a: seq<Observer>, b: seq<Observer>, failing: set<nat>, e: Event,
                                           profiles: seq<Profile>, now: Instant)
    ensures NotifyAll(a + b, failing, e, profiles, now) ==
            NotifyAll(a, failing, e, profiles, now) + NotifyAll(b, failing, e, profiles, now)
    decreases |a|
  {
    if a == [] {
      assert a + b == b;
    } else {
      assert (a + b)[0] == a[0] && (a + b)[1..] == a[1..] + b;
      NotifyAllAppend(a[1..], b, failing, e, profiles, now);
    }
  }

  /** The observers that do not raise, in registry order. */
  function Healthy(observers: seq<Observer>, failing: set<nat>): (r: seq<Observer>)
    ensures forall o :: o in r <==> o in observers && o.ident !in failing
    decreases |observers|
  {
    if observers == [] then []
    else
      assert forall o :: o in observers <==> o == observers[0] || o in observers[1..];
      (if observers[0].ident in failing then [] else [observers[0]]) + Healthy(observers[1..], failing)
  }

  /**
   * A raising observer does not stop the rest: notifying with failures writes exactly
   * what the healthy observers write when nobody fails, in the same order.
   */
  lemma {:induction false} NotifyFaultTolerant(observers: seq<Observer>, failing: set<nat>, e: Event,
                                               profiles: seq<Profile>, now: Instant)
    ensures NotifyAll(observers, failing, e, profiles, now) ==
            NotifyAll(Healthy(observers, failing), {}, e, profiles, now)
    decreases |observers|
  {
    if observers != [] {
      var o := observers[0];
      var h := if o.ident in failing then [] else [o];
      NotifyFaultTolerant(observers[1..], failing, e, profiles, now);
      NotifyAllAppend(h, Healthy(observers[1..], failing), {}, e, profiles, now);
      if h != [] {
        assert h[1..] == [];
      }
    }
  }

  // ---------------------------------------------------------------- default subject

  /** `get_orden_trabajo_subject`: build the registry on first use, then reuse it. */
  function GetSubject(current: Option<seq<Observer>>): (r: seq<Observer>)
    ensures current.Some? ==> r == current.value
    ensures current.None? ==> |r| == 3 && r[0].kind == MechanicObserver &&
                              r[1].kind == ManagerObserver && r[2].kind == ReceptionObserver
    ensures current.None? ==> NoDuplicates(r)
  {
    match current
    case Some(s) => s
    case None =>
      Attach(Attach(Attach([], Observer(0, MechanicObserver)), Observer(1, ManagerObserver)), Observer(2, ReceptionObserver))
  }

  /** The default registry as `get_orden_trabajo_subject` leaves it (see `SubjectBuiltOnce`). */
  function DefaultObservers(): (r: seq<Observer>)
    ensures |r| == 3 && NoDuplicates(r)
  {
    [Observer(0, MechanicObserver), Observer(1, ManagerObserver), Observer(2, ReceptionObserver)]
  }

  /** The singleton is built once: asking again returns the same registry. */
  lemma SubjectBuiltOnce()
    ensures GetSubject(Some(GetSubject(None))) == GetSubject(None)
    ensures GetSubject(None) == DefaultObservers()
  {
  }

  /**
   * With the default registry and no failures, an event yields at most one notification;
   * it yields exactly one, following the routing table, when its recipient resolves.
   */
  lemma DefaultNotifyRouted(e: Event, profiles: seq<Profile>, now: Instant)
    ensures var r := NotifyAll(DefaultObservers(), {}, e, profiles, now);
            |r| <= 1 &&
            (|r| == 1 <==> RecipientResolves(e, profiles)) &&
            (|r| == 1 ==> Delivers(r[0], e, profiles, now))
  {
    var obs := DefaultObservers();
    NotifyThree(obs, e, profiles, now);
    WrittenRouted(obs[0], e, profiles, now);
    WrittenRouted(obs[1], e, profiles, now);
    WrittenRouted(obs[2], e, profiles, now);
    var k := RouteOf(e.kind).role;
    assert k == ObserverRole(obs[0].kind) || k == ObserverRole(obs[1].kind) || k == ObserverRole(obs[2].kind) by {
      match e.kind
      case EstadoCambiado =>
      case Asignacion =>
      case ControlCalidad =>
      case SolicitudCambio =>
      case Atraso =>
      case BitacoraRegistrada =>
      case OtFinalizada =>
    }
  }

  /** A healthy observer writes once exactly when it holds the event's route and the recipient resolves. */
  lemma WrittenRouted(o: Observer, e: Event, profiles: seq<Profile>, now: Instant)
    ensures var w := Written(o, {}, e, profiles, now);
            |w| == (if ObserverRole(o.kind) == RouteOf(e.kind).role && RecipientResolves(e, profiles) then 1 else 0) &&
            (|w| == 1 ==> Delivers(w[0], e, profiles, now))
  {
    if ObserverRole(o.kind) != RouteOf(e.kind).role {
      UnroutedObserverSilent(o, e, profiles, now);
    } else {
      if RecipientResolves(e, profiles) {
        RoutedObserverWrites(o, e, profiles, now);
      }
      if Update(o, e, profiles, now).Some? {
        UpdateFollowsRoute(o, e, profiles, now);
      }
    }
  }

  lemma NotifyThree(obs: seq<Observer>, e: Event, profiles: seq<Profile>, now: Instant)
    requires |obs| == 3
    ensures NotifyAll(obs, {}, e, profiles, now) ==
            Written(obs[0], {}, e, profiles, now) + Written(obs[1], {}, e, profiles, now) +
            Written(obs[2], {}, e, profiles, now)
  {
    var t1 := obs[1..];
    var t2 := t1[1..];
    assert t2[1..] == [] && t1[0] == obs[1] && t2[0] == obs[2];
    assert NotifyAll(t2, {}, e, profiles, now) == Written(obs[2], {}, e, profiles, now) + [];
    assert NotifyAll(t1, {}, e, profiles, now) ==
           Written(obs[1], {}, e, profiles, now) + NotifyAll(t2, {}, e, profiles, now);
  }

  /**
   * `cambiar_estado`: notify ESTADO_CAMBIADO with the order's current state as the previous
   * one. Besides notifying, it only records that previous state on the singleton
   * (`_estado_anterior`), which nothing reads and the model does not keep. Only the mechanic
   * observer reacts, so every notification is the state-change notice to the profile of the
   * order's mechanic; with the default registry and no failures, that notice is written
   * exactly when the order has a mechanic whose profile resolves.
   */
  function ChangeState(h: Hub, o: Order, newState: string, sender: Option<Profile>): (r: seq<Notification>)
    ensures forall n :: n in r ==> StateChangeNotice(n, o, newState, sender, h.profiles, h.now)
    ensures |r| <= |h.observers|
    ensures h.observers == DefaultObservers() && h.failing == {} ==>
              |r| <= 1 && (|r| == 1 <==> o.mechanic.Some? && MechanicProfile(h.profiles, o.mechanic.value).Some?)
  {
    var e := Event(EstadoCambiado, Some(o), sender, Some(o.state), Some(newState), None, None);
    var r := Notify(h, e);
    assert forall n :: n in r ==> StateChangeNotice(n, o, newState, sender, h.profiles, h.now) by {
      ChangeStateWrites(h.observers, h.failing, e, h.profiles, h.now);
    }
    if h.observers == DefaultObservers() && h.failing == {} then
      DefaultNotifyRouted(e, h.profiles, h.now);
      r
    else r
  }

  /** The notice a mechanic gets when the order moves to `newState`. */
  predicate StateChangeNotice(n: Notification, o: Order, newState: string, sender: Option<Profile>,
                              profiles: seq<Profile>, now: Instant) {
    o.mechanic.Some? && MechanicProfile(profiles, o.mechanic.value).Some? &&
    n == Notification(MensajeGeneral, Some(o.id), ProfileId(sender),
                      Some(MechanicProfile(profiles, o.mechanic.value).value.id),
                      StateChangedMessage(o, newState), now, false)
  }

  lemma {:induction false} ChangeStateWrites(observers: seq<Observer>, failing: set<nat>, e: Event,
                                             profiles: seq<Profile>, now: Instant)
    requires e.kind == EstadoCambiado && e.order.Some?
    ensures forall n :: n in NotifyAll(observers, failing, e, profiles, now) ==>
              StateChangeNotice(n, e.order.value, e.newState.GetOr(""), e.sender, profiles, now)
    decreases |observers|
  {
    if observers != [] {
      ChangeStateWrites(observers[1..], failing, e, profiles, now);
      if Update(observers[0], e, profiles, now).Some? {
        UpdateFollowsRoute(observers[0], e, profiles, now);
      }
    }
  }
}
