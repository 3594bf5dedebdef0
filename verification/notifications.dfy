/**
 * NotificationService (core/services/notification_service.py): builders that hand one
 * event to the default subject, and the delay notice that is sent at most once per order.
 */
module Notifications {
  import opened Wrappers
  import opened Text
  import opened Models
  import opened Observer
  import opened Signals

  /** `notificar_solicitud_cambio`: the message and issuer travel unchanged. */
  function ChangeRequestEvent(order: Order, message: string, sender: Option<Profile>): (e: Event)
    ensures e.kind == EventKind.SolicitudCambio && e.order == Some(order)
    ensures e.message == Some(message) && e.sender == sender
  {
    Event(EventKind.SolicitudCambio, Some(order), sender, None, None, Some(message), None)
  }

  /** With a shop manager present, the change request reaches the manager with its text as written. */
  lemma ChangeRequestDelivered(order: Order, message: string, sender: Option<Profile>,
                               profiles: seq<Profile>, now: Instant)
    requires FirstWithRole(profiles, EncargadoTaller).Some?
    ensures var r := NotifyAll(DefaultObservers(), {}, ChangeRequestEvent(order, message, sender), profiles, now);
            |r| == 1 && r[0].kind == NotifType.SolicitudCambio && r[0].message == message &&
            r[0].recipient == Some(FirstWithRole(profiles, EncargadoTaller).value.id) &&
            r[0].sender == ProfileId(sender)
  {
    DefaultNotifyRouted(ChangeRequestEvent(order, message, sender), profiles, now);
  }

  /** An ATRASO_TRABAJO notification about the order. */
  predicate IsDelayNotice(n: Notification, orderId: nat) {
    n.kind == AtrasoTrabajo && n.orderId == Some(orderId)
  }

  predicate HasDelayNotice(notifs: seq<Notification>, orderId: nat) {
    exists i :: 0 <= i < |notifs| && IsDelayNotice(notifs[i], orderId)
  }

  /** How many delay notices the table holds for an order. */
  function CountDelayNotices(notifs: seq<Notification>, orderId: nat): (c: nat)
    ensures c == 0 <==> !HasDelayNotice(notifs, orderId)
    ensures c <= |notifs|
    decreases |notifs|
  {
    if notifs == [] then 0
    else
      var rest := CountDelayNotices(notifs[1..], orderId);
      assert HasDelayNotice(notifs, orderId) <==> IsDelayNotice(notifs[0], orderId) || HasDelayNotice(notifs[1..], orderId) by {
        if HasDelayNotice(notifs[1..], orderId) {
          var i :| 0 <= i < |notifs[1..]| && IsDelayNotice(notifs[1..][i], orderId);
          assert notifs[i + 1] == notifs[1..][i];
        }
        if HasDelayNotice(notifs, orderId) && !IsDelayNotice(notifs[0], orderId) {
          var i :| 0 <= i < |notifs| && IsDelayNotice(notifs[i], orderId);
          assert notifs[1..][i - 1] == notifs[i];
        }
      }
      (if IsDelayNotice(notifs[0], orderId) then 1 else 0) + rest
  }

  lemma {:induction false} CountDelayAppend(a: seq<Notification>, b: seq<Notification>, orderId: nat)
    ensures CountDelayNotices(a + b, orderId) == CountDelayNotices(a, orderId) + CountDelayNotices(b, orderId)
    decreases |a|
  {
    if a == [] {
      assert a + b == b;
    } else {
      assert (a + b)[0] == a[0] && (a + b)[1..] == a[1..] + b;
      CountDelayAppend(a[1..], b, orderId);
    }
  }

  /**
   * `notificar_atraso`: nothing when the order already has an ATRASO_TRABAJO notification,
   * otherwise one ATRASO event with the given issuer.
   */
  function DelayEvents(notifs: seq<Notification>, order: Order, sender: Option<Profile>): (r: seq<Event>)
    ensures HasDelayNotice(notifs, order.id) <==> r == []
    ensures r != [] ==> r == [SimpleEvent(Atraso, Some(order), sender)]
  {
    if HasDelayNotice(notifs, order.id) then [] else [SimpleEvent(Atraso, Some(order), sender)]
  }

  /**
   * The notifications table after one `notificar_atraso`: only appended to, untouched when the
   * order already has a delay notice; with the default registry and no failures, a first call
   * writes one delay notice to the first shop manager, or nothing when there is none.
   */
  function NotifyDelay(h: Hub, notifs: seq<Notification>, order: Order, sender: Option<Profile>): (r: seq<Notification>)
    ensures notifs <= r
    ensures HasDelayNotice(notifs, order.id) ==> r == notifs
    ensures h.observers == DefaultObservers() && h.failing == {} && !HasDelayNotice(notifs, order.id) ==>
              (FirstWithRole(h.profiles, EncargadoTaller).None? ==> r == notifs) &&
              (FirstWithRole(h.profiles, EncargadoTaller).Some? ==>
                 |r| == |notifs| + 1 && IsDelayNotice(r[|notifs|], order.id) &&
                 r[|notifs|].recipient == Some(FirstWithRole(h.profiles, EncargadoTaller).value.id) &&
                 r[|notifs|].sender == ProfileId(sender))
  {
    var ev := DelayEvents(notifs, order, sender);
    if ev != [] && h.observers == DefaultObservers() && h.failing == {} then
      var e := SimpleEvent(Atraso, Some(order), sender);
      assert ev == [e] && ev[1..] == [];
      assert Deliver(h, ev) == Notify(h, e) + [];
      DefaultNotifyRouted(e, h.profiles, h.now);
      notifs + Deliver(h, ev)
    else
      notifs + Deliver(h, ev)
  }

  /** The registry every service uses, with no observer raising. */
  function DefaultHub(profiles: seq<Profile>, now: Instant): Hub {
    Hub(DefaultObservers(), {}, profiles, now)
  }

  /** An ATRASO event delivered to the default subject writes exactly one delay notice for the order. */
  lemma DelayEventWritesOne(order: Order, sender: Option<Profile>, profiles: seq<Profile>, now: Instant)
    requires FirstWithRole(profiles, EncargadoTaller).Some?
    ensures var w := Deliver(DefaultHub(profiles, now), [SimpleEvent(Atraso, Some(order), sender)]);
            |w| == 1 && IsDelayNotice(w[0], order.id)
  {
    var e := SimpleEvent(Atraso, Some(order), sender);
    var h := DefaultHub(profiles, now);
    assert [e][1..] == [];
    assert Deliver(h, [e]) == Notify(h, e) + [];
    DefaultNotifyRouted(e, profiles, now);
  }

  /**
   * With a shop manager present, two consecutive `notificar_atraso` calls on one order
   * leave exactly one ATRASO_TRABAJO notification for it, when there was none before.
   */
  lemma DelayNotifiedOnce(profiles: seq<Profile>, now1: Instant, now2: Instant, notifs: seq<Notification>,
                          order: Order, s1: Option<Profile>, s2: Option<Profile>)
    requires FirstWithRole(profiles, EncargadoTaller).Some?
    requires !HasDelayNotice(notifs, order.id)
    ensures var once := NotifyDelay(DefaultHub(profiles, now1), notifs, order, s1);
            var twice := NotifyDelay(DefaultHub(profiles, now2), once, order, s2);
            CountDelayNotices(twice, order.id) == 1 && twice == once
  {
    var w := Deliver(DefaultHub(profiles, now1), [SimpleEvent(Atraso, Some(order), s1)]);
    DelayEventWritesOne(order, s1, profiles, now1);
    var once := notifs + w;
    assert NotifyDelay(DefaultHub(profiles, now1), notifs, order, s1) == once;
    assert HasDelayNotice(once, order.id) by {
      assert once[|notifs|] == w[0];
    }
    assert NotifyDelay(DefaultHub(profiles, now2), once, order, s2) == once by {
      assert DelayEvents(once, order, s2) == [];
      assert once + [] == once;
    }
    CountDelayAppend(notifs, w, order.id);
    assert CountDelayNotices(w, order.id) == 1 by {
      assert w[1..] == [];
    }
  }

  /** `notificar_bitacora_registrada`: one BITACORA_REGISTRADA event. */
  function LogEvent(order: Order, sender: Option<Profile>): (e: Event)
    ensures e.kind == BitacoraRegistrada && e.order == Some(order) && e.sender == sender
  {
    SimpleEvent(BitacoraRegistrada, Some(order), sender)
  }

  /** `notificar_control_calidad`: one CONTROL_CALIDAD event carrying the result. */
  function QcEvent(order: Order, result: string, sender: Option<Profile>): (e: Event)
    ensures e.kind == ControlCalidad && e.order == Some(order) && e.sender == sender && e.result == Some(result)
  {
    Event(ControlCalidad, Some(order), sender, None, None, None, Some(result))
  }

  /** `notificar_ot_finalizada`: one OT_FINALIZADA event. */
  function FinishedEvent(order: Order, sender: Option<Profile>): (e: Event)
    ensures e.kind == OtFinalizada && e.order == Some(order) && e.sender == sender
  {
    SimpleEvent(OtFinalizada, Some(order), sender)
  }

  /**
   * Each builder's event reaches exactly the role the routing table names, when that
   * recipient exists: the shop manager for the log entry, the mechanic for the quality
   * control, the receptionist for the finished order.
   */
  lemma BuildersRouted(order: Order, result: string, sender: Option<Profile>, profiles: seq<Profile>, now: Instant)
    ensures RouteOf(LogEvent(order, sender).kind) == Route(MensajeGeneral, EncargadoTaller)
    ensures RouteOf(QcEvent(order, result, sender).kind) == Route(MensajeGeneral, Mecanico)
    ensures RouteOf(FinishedEvent(order, sender).kind) == Route(MensajeGeneral, Recepcionista)
    ensures |NotifyAll(DefaultObservers(), {}, FinishedEvent(order, sender), profiles, now)| ==
            (if FirstWithRole(profiles, Recepcionista).Some? then 1 else 0)
    ensures |NotifyAll(DefaultObservers(), {}, LogEvent(order, sender), profiles, now)| ==
            (if FirstWithRole(profiles, EncargadoTaller).Some? then 1 else 0)
  {
    DefaultNotifyRouted(FinishedEvent(order, sender), profiles, now);
    DefaultNotifyRouted(LogEvent(order, sender), profiles, now);
  }
}
