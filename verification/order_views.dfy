/**
 * The business rules inside the work-order views of core/views.py: assignment from the
 * order detail page, the one-shot quality control, the mechanic's job list with its delay
 * alerts, and the log entry with its optional change request. Each view runs behind a
 * role gate, so the caller's profile is given.
 */
module OrderViews {
  import opened Wrappers
  import opened Text
  import opened Models
  import opened Validators
  import opened Observer
  import opened Signals
  import opened Notifications
  import opened Assignment
  import opened Helpers

  /** The logged-in user behind a profile the role gate let through. */
  function ViewerUser(viewer: Profile): (u: User)
    ensures u.authenticated && u.profile == Some(viewer) && u.account == viewer.account
  {
    User(true, viewer.account, Some(viewer))
  }

  /** A MENSAJE_GENERAL written by a view to the profile of mechanic `m`, when it resolves. */
  function MechanicNotice(profiles: seq<Profile>, m: Mechanic, o: Order, viewer: Profile, text: string, now: Instant): (r: seq<Notification>)
    ensures |r| <= 1
    ensures r != [] <==> MechanicProfile(profiles, m).Some?
    ensures r != [] ==> r[0] == Notification(MensajeGeneral, Some(o.id), Some(viewer.id),
                                             Some(MechanicProfile(profiles, m).value.id), text, now, false)
  {
    match MechanicProfile(profiles, m)
    case None => []
    case Some(p) => [Notification(MensajeGeneral, Some(o.id), Some(viewer.id), Some(p.id), text, now, false)]
  }

  // ---------------------------------------------------------------- detalle_ot

  /**
   * The page's outcome: the validator's message when the form is refused (the page shows
   * `str(e)` of the ValidationError, that is the message inside a list display), the order,
   * the signal cache, the events of the save and the notifications written directly.
   */
  datatype DetailOutcome = DetailOutcome(error: Option<string>, order: Order, cache: StateCache,
                                         events: seq<Event>, direct: seq<Notification>)

  /**
   * `detalle_ot` on a valid form: the estimated-date validator guards; then the same writes
   * as the assignment service and a save, but instead of an ASIGNACION event the view writes
   * the mechanic's notification itself.
   */
  function AssignFromDetail(cache: StateCache, o: Order, m: Mechanic, z: Zone, est: Date, viewer: Profile,
                            profiles: seq<Profile>, now: Instant): (r: DetailOutcome)
    ensures r.error.Some? <==> est < o.intake
    ensures r.error.Some? ==> r.error.value == EstimatedBeforeIntakeMessage && r.order == o && r.cache == cache &&
                              r.events == [] && r.direct == []
    ensures r.error.None? ==> CountKind(r.events, Asignacion) == 0 && |r.direct| <= 1
  {
    match ValidateEstimatedAfterIntake(Some(est), Some(o.intake))
    case Invalid(msg) => DetailOutcome(Some(msg), o, cache, [], [])
    case Valid =>
      var o' := AssignFields(o, m, z, est);
      var saved := SaveOrder(cache, Some(o.id), Some(o), o');
      assert CountKind(saved.events, Asignacion) == 0;
      DetailOutcome(None, o', saved.cache, saved.events, MechanicNotice(profiles, m, o', viewer, AssignedMessage(o'), now))
  }

  /**
   * The page and the service agree on the outcome, the order and the cache; the page's
   * events are the service's without the final ASIGNACION.
   */
  lemma DetailAgreesWithService(cache: StateCache, o: Order, m: Mechanic, z: Zone, est: Date, viewer: Profile,
                                profiles: seq<Profile>, now: Instant)
    ensures var d := AssignFromDetail(cache, o, m, z, est, viewer, profiles, now);
            var s := AssignOrder(cache, o, m, z, est, Some(viewer));
            (d.error.None? <==> s.ok) && d.order == s.order && d.cache == s.cache &&
            (s.ok ==> s.events == d.events + [SimpleEvent(Asignacion, Some(s.order), Some(viewer))])
  {
  }

  /**
   * The notification the page writes by hand is exactly the one the mechanic observer
   * would write for the ASIGNACION event the page does not emit.
   */
  lemma DetailNoticeIsObserverNotice(cache: StateCache, o: Order, m: Mechanic, z: Zone, est: Date, viewer: Profile,
                                     profiles: seq<Profile>, now: Instant)
    requires o.intake <= est
    ensures var d := AssignFromDetail(cache, o, m, z, est, viewer, profiles, now);
            d.direct == Notify(Hub(DefaultObservers(), {}, profiles, now), SimpleEvent(Asignacion, Some(d.order), Some(viewer)))
  {
    var d := AssignFromDetail(cache, o, m, z, est, viewer, profiles, now);
    var e := SimpleEvent(Asignacion, Some(d.order), Some(viewer));
    DefaultNotifyRouted(e, profiles, now);
  }

  // ---------------------------------------------------------------- control_calidad

  datatype QcOutcome = QcOutcome(recorded: bool, order: Order, cache: StateCache,
                                 events: seq<Event>, direct: seq<Notification>)

  /** Everything recording a quality control does not write is as it was. */
  predicate SameOutsideQc(a: Order, b: Order) {
    a.id == b.id && a.clientId == b.clientId && a.vehicleId == b.vehicleId && a.mechanic == b.mechanic &&
    a.zone == b.zone && a.intake == b.intake && a.estimated == b.estimated && a.delivered == b.delivered &&
    a.priority == b.priority && a.waitlisted == b.waitlisted && a.services == b.services &&
    a.parts == b.parts && a.logs == b.logs
  }

  /**
   * `control_calidad` on a valid form: an order that already has its quality control only
   * shows it. Otherwise the control is saved with the user as responsible (its hook
   * announces it), the order moves to FINALIZADO when approved and to PENDIENTE otherwise
   * and is saved, and the order's mechanic is told directly.
   */
  function RecordQc(cache: StateCache, o: Order, form: QualityControl, viewer: Profile,
                    profiles: seq<Profile>, now: Instant): (r: QcOutcome)
    ensures o.qc.Some? ==> !r.recorded && r.order == o && r.cache == cache && r.events == [] && r.direct == []
    ensures o.qc.None? ==> r.recorded && r.order.qc == Some(form.(responsible := viewer.account.username))
    ensures o.qc.None? ==> (r.order.state == StateFinalizado <==> form.result == Aprobado) &&
                           (form.result != Aprobado ==> r.order.state == StatePendiente) &&
                           SameOutsideQc(o, r.order)
    ensures o.qc.None? ==> |r.events| >= 1 && r.events[0].kind == ControlCalidad && r.events[0].result == Some(QcResultName(form.result))
    ensures o.qc.None? && o.mechanic.None? ==> r.direct == []
    ensures o.qc.None? ==> r.cache == SaveOrder(cache, Some(o.id), Some(o), r.order).cache
    ensures o.qc.None? ==> (Some(o.id) in r.cache <==> o.id != 0 && r.order.state == o.state) &&
                           forall k :: k in cache && k != Some(o.id) ==> k in r.cache && r.cache[k] == cache[k]
    ensures o.qc.None? ==> |r.direct| <= 1 &&
                           (r.direct != [] <==> o.mechanic.Some? && MechanicProfile(profiles, o.mechanic.value).Some?)
    ensures o.qc.None? && r.direct != [] ==>
              r.direct[0].recipient == Some(MechanicProfile(profiles, o.mechanic.value).value.id) &&
              r.direct[0].message == QcMessage(r.order, QcResultName(form.result))
  {
    if o.qc.Some? then QcOutcome(false, o, cache, [], [])
    else
      var qc := form.(responsible := viewer.account.username);
      var announced := QcSaved(qc, o, true, profiles);
      var next := if QcResultName(qc.result) == "APROBADO" then StateFinalizado else StatePendiente;
      var o' := o.(qc := Some(qc), state := next);
      var saved := SaveOrder(cache, Some(o.id), Some(o), o');
      var direct := match o'.mechanic
        case None => []
        case Some(m) => MechanicNotice(profiles, m, o', viewer, QcMessage(o', QcResultName(qc.result)), now);
      QcOutcome(true, o', saved.cache, announced + saved.events, direct)
  }

  /** A quality control is recorded once: a second attempt changes nothing and says nothing. */
  lemma QcOneShot(cache: StateCache, o: Order, f1: QualityControl, f2: QualityControl, viewer: Profile,
                  profiles: seq<Profile>, now1: Instant, now2: Instant)
    ensures var first := RecordQc(cache, o, f1, viewer, profiles, now1);
            var second := RecordQc(first.cache, first.order, f2, viewer, profiles, now2);
            !second.recorded && second.order == first.order && second.events == [] && second.direct == []
  {
  }

  /**
   * The events of a recorded control come in the order the hooks run: CONTROL_CALIDAD,
   * then OT_FINALIZADA exactly when approved, then the state change of the order's save
   * (none when the state did not change).
   */
  lemma QcEventOrder(cache: StateCache, o: Order, form: QualityControl, viewer: Profile, profiles: seq<Profile>, now: Instant)
    requires o.qc.None? && o.id != 0
    ensures var r := RecordQc(cache, o, form, viewer, profiles, now);
            var k := if form.result == Aprobado then 2 else 1;
            k <= |r.events| &&
            r.events[0].kind == ControlCalidad &&
            (form.result == Aprobado ==> r.events[1].kind == OtFinalizada) &&
            CountKind(r.events, OtFinalizada) == k - 1 &&
            (forall i :: k <= i < |r.events| ==> r.events[i].kind == EstadoCambiado) &&
            (|r.events| > k <==> o.state != r.order.state)
  {
    var r := RecordQc(cache, o, form, viewer, profiles, now);
    var qc := form.(responsible := viewer.account.username);
    var announced := QcSaved(qc, o, true, profiles);
    var saved := SaveOrder(cache, Some(o.id), Some(o), r.order);
    assert r.events == announced + saved.events;
    SaveExistingEmitsOnChange(cache, o, r.order);
    CountKindAppend(announced, saved.events, OtFinalizada);
    if form.result == Aprobado {
      assert announced[1..][1..] == [];
    } else {
      assert announced[1..] == [];
    }
    if saved.events != [] {
      assert saved.events[1..] == [];
    }
  }

  /**
   * With the default subject, the mechanic is told twice about the same control: the
   * CONTROL_CALIDAD event's notification and the view's own carry the same text to the
   * same profile.
   */
  lemma QcMechanicToldTwice(cache: StateCache, o: Order, form: QualityControl, viewer: Profile,
                            profiles: seq<Profile>, now: Instant)
    requires o.qc.None? && o.mechanic.Some? && MechanicProfile(profiles, o.mechanic.value).Some?
    ensures var r := RecordQc(cache, o, form, viewer, profiles, now);
            var w := Notify(Hub(DefaultObservers(), {}, profiles, now), r.events[0]);
            |w| == 1 && |r.direct| == 1 && w[0].recipient == r.direct[0].recipient && w[0].message == r.direct[0].message
  {
    var r := RecordQc(cache, o, form, viewer, profiles, now);
    DefaultNotifyRouted(r.events[0], profiles, now);
  }

  // ---------------------------------------------------------------- mis_trabajos

  /** The mechanic's jobs: orders assigned to them (by key) that are EN_PROGRESO or PENDIENTE, in table order. */
  function MyJobs(orders: seq<Order>, m: Mechanic): (r: seq<Order>)
    ensures forall o :: o in r <==> o in orders && o.mechanic.Some? && o.mechanic.value.id == m.id &&
                                    (o.state == StateEnProgreso || o.state == StatePendiente)
    ensures |r| <= |orders|
    decreases |orders|
  {
    if orders == [] then []
    else
      var o := orders[0];
      assert forall x :: x in orders <==> x == o || x in orders[1..];
      var keep := o.mechanic.Some? && o.mechanic.value.id == m.id && (o.state == StateEnProgreso || o.state == StatePendiente);
      (if keep then [o] else []) + MyJobs(orders[1..], m)
  }

  /** An order past its estimated date and not finished. */
  predicate Overdue(o: Order, today: Date) {
    o.estimated.Some? && o.state != StateFinalizado && today > o.estimated.value
  }

  /** The alert the job list writes for one job: only when overdue, not yet alerted and a manager exists. */
  function DelayAlertFor(notifs: seq<Notification>, o: Order, manager: Option<Profile>, viewer: Profile,
                         today: Date, now: Instant): (r: seq<Notification>)
    ensures |r| <= 1
    ensures r != [] <==> Overdue(o, today) && !HasDelayNotice(notifs, o.id) && manager.Some?
    ensures r != [] ==> IsDelayNotice(r[0], o.id) && r[0].recipient == Some(manager.value.id) &&
                        r[0].sender == Some(viewer.id)
  {
    if Overdue(o, today) && !HasDelayNotice(notifs, o.id) && manager.Some? then
      [Notification(AtrasoTrabajo, Some(o.id), Some(viewer.id), Some(manager.value.id), DelayMessage(o), now, false)]
    else []
  }

  /** The view writes by hand exactly what `notificar_atraso` would have delivered through the default subject. */
  lemma DelayAlertIsServiceAlert(notifs: seq<Notification>, o: Order, viewer: Profile, profiles: seq<Profile>,
                                 today: Date, now: Instant)
    requires Overdue(o, today)
    ensures DelayAlertFor(notifs, o, FirstWithRole(profiles, EncargadoTaller), viewer, today, now) ==
            Deliver(DefaultHub(profiles, now), DelayEvents(notifs, o, Some(viewer)))
  {
    var ev := DelayEvents(notifs, o, Some(viewer));
    if ev != [] {
      var e := SimpleEvent(Atraso, Some(o), Some(viewer));
      assert ev == [e] && ev[1..] == [];
      assert Deliver(DefaultHub(profiles, now), ev) == Notify(DefaultHub(profiles, now), e) + [];
      DefaultNotifyRouted(e, profiles, now);
    }
  }

  /** The loop over the jobs: each alert sees the ones written before it. */
  function DelayAlerts(notifs: seq<Notification>, jobs: seq<Order>, manager: Option<Profile>, viewer: Profile,
                       today: Date, now: Instant): (r: seq<Notification>)
    ensures notifs <= r
    ensures manager.None? ==> r == notifs
    decreases |jobs|
  {
    if jobs == [] then notifs
    else
      var next := notifs + DelayAlertFor(notifs, jobs[0], manager, viewer, today, now);
      DelayAlerts(next, jobs[1..], manager, viewer, today, now)
  }

  /** At most one delay notice per order. */
  ghost predicate DelaysUnique(notifs: seq<Notification>) {
    forall id :: CountDelayNotices(notifs, id) <= 1
  }

  lemma {:induction false} DelayNoticeKept(a: seq<Notification>, b: seq<Notification>, id: nat)
    requires a <= b && HasDelayNotice(a, id)
    ensures HasDelayNotice(b, id)
  {
    var i :| 0 <= i < |a| && IsDelayNotice(a[i], id);
    assert b[i] == a[i];
  }

  /** One step of the loop keeps delay notices unique. */
  lemma DelayAlertKeepsUnique(notifs: seq<Notification>, o: Order, manager: Option<Profile>, viewer: Profile,
                              today: Date, now: Instant)
    requires DelaysUnique(notifs)
    ensures DelaysUnique(notifs + DelayAlertFor(notifs, o, manager, viewer, today, now))
  {
    var w := DelayAlertFor(notifs, o, manager, viewer, today, now);
    forall id
      ensures CountDelayNotices(notifs + w, id) <= 1
    {
      CountDelayAppend(notifs, w, id);
      if w != [] {
        assert w[1..] == [];
        if id == o.id {
          assert CountDelayNotices(notifs, id) == 0;
        } else {
          assert !IsDelayNotice(w[0], id);
        }
      }
    }
  }

  /** The job list never writes a second delay notice for an order. */
  lemma {:induction false} DelayAlertsUnique(notifs: seq<Notification>, jobs: seq<Order>, manager: Option<Profile>,
                                             viewer: Profile, today: Date, now: Instant)
    requires DelaysUnique(notifs)
    ensures DelaysUnique(DelayAlerts(notifs, jobs, manager, viewer, today, now))
    decreases |jobs|
  {
    if jobs != [] {
      DelayAlertKeepsUnique(notifs, jobs[0], manager, viewer, today, now);
      DelayAlertsUnique(notifs + DelayAlertFor(notifs, jobs[0], manager, viewer, today, now), jobs[1..],
                        manager, viewer, today, now);
    }
  }

  /** With a manager present, every overdue job has a delay notice afterwards. */
  lemma {:induction false} DelayAlertsCover(notifs: seq<Notification>, jobs: seq<Order>, manager: Option<Profile>,
                                            viewer: Profile, today: Date, now: Instant)
    requires manager.Some?
    ensures var r := DelayAlerts(notifs, jobs, manager, viewer, today, now);
            forall o :: o in jobs && Overdue(o, today) ==> HasDelayNotice(r, o.id)
    decreases |jobs|
  {
    if jobs != [] {
      var w := DelayAlertFor(notifs, jobs[0], manager, viewer, today, now);
      var next := notifs + w;
      var r := DelayAlerts(notifs, jobs, manager, viewer, today, now);
      DelayAlertsCover(next, jobs[1..], manager, viewer, today, now);
      if Overdue(jobs[0], today) {
        if HasDelayNotice(notifs, jobs[0].id) {
          DelayNoticeKept(notifs, next, jobs[0].id);
        } else {
          assert next[|notifs|] == w[0];
        }
        DelayNoticeKept(next, r, jobs[0].id);
      }
      forall o | o in jobs && Overdue(o, today)
        ensures HasDelayNotice(r, o.id)
      {
        if o != jobs[0] {
          assert o in jobs[1..];
        }
      }
    }
  }

  /** Every notification the job list adds is a delay notice for one of the overdue jobs. */
  lemma {:induction false} DelayAlertsOnlyOverdue(notifs: seq<Notification>, jobs: seq<Order>, manager: Option<Profile>,
                                                  viewer: Profile, today: Date, now: Instant)
    ensures var r := DelayAlerts(notifs, jobs, manager, viewer, today, now);
            forall k :: |notifs| <= k < |r| ==> exists o :: o in jobs && Overdue(o, today) && IsDelayNotice(r[k], o.id)
    decreases |jobs|
  {
    if jobs != [] {
      var w := DelayAlertFor(notifs, jobs[0], manager, viewer, today, now);
      var next := notifs + w;
      var r := DelayAlerts(notifs, jobs, manager, viewer, today, now);
      DelayAlertsOnlyOverdue(next, jobs[1..], manager, viewer, today, now);
      forall k | |notifs| <= k < |r|
        ensures exists o :: o in jobs && Overdue(o, today) && IsDelayNotice(r[k], o.id)
      {
        if k < |next| {
          assert r[k] == next[k] == w[0];
          assert jobs[0] in jobs;
        } else {
          assert DelayAlerts(next, jobs[1..], manager, viewer, today, now) == r;
          var o :| o in jobs[1..] && Overdue(o, today) && IsDelayNotice(r[k], o.id);
          assert o in jobs;
        }
      }
    }
  }

  /** What the job list page shows and the notifications table after it. */
  datatype JobsPage = JobsPage(jobs: seq<Order>, notifs: seq<Notification>)

  /**
   * `mis_trabajos`: no jobs and no alerts when the user's mechanic record is not found;
   * otherwise the mechanic's open jobs, with delay alerts addressed to the first shop manager.
   * Afterwards, with a manager present, every overdue job has a delay notice, and every row
   * the page added is the delay notice of one of its overdue jobs.
   */
  function MisTrabajos(viewer: Profile, mechanics: seq<Mechanic>, orders: seq<Order>, notifs: seq<Notification>,
                       profiles: seq<Profile>, today: Date, now: Instant): (r: JobsPage)
    ensures FindMechanic(Some(ViewerUser(viewer)), mechanics).None? ==> r.jobs == [] && r.notifs == notifs
    ensures notifs <= r.notifs
    ensures DelaysUnique(notifs) ==> DelaysUnique(r.notifs)
    ensures FindMechanic(Some(ViewerUser(viewer)), mechanics).Some? ==>
              var manager := FirstWithRole(profiles, EncargadoTaller);
              r.jobs == MyJobs(orders, FindMechanic(Some(ViewerUser(viewer)), mechanics).value) &&
              r.notifs == DelayAlerts(notifs, r.jobs, manager, viewer, today, now) &&
              (manager.None? ==> r.notifs == notifs) &&
              (manager.Some? ==> forall o :: o in r.jobs && Overdue(o, today) ==> HasDelayNotice(r.notifs, o.id))
    ensures forall k :: |notifs| <= k < |r.notifs| ==>
              exists o :: o in r.jobs && Overdue(o, today) && IsDelayNotice(r.notifs[k], o.id)
  {
    match FindMechanic(Some(ViewerUser(viewer)), mechanics)
    case None => JobsPage([], notifs)
    case Some(m) =>
      var jobs := MyJobs(orders, m);
      var manager := FirstWithRole(profiles, EncargadoTaller);
      var r := DelayAlerts(notifs, jobs, manager, viewer, today, now);
      assert DelaysUnique(notifs) ==> DelaysUnique(r) by {
        if DelaysUnique(notifs) {
          DelayAlertsUnique(notifs, jobs, manager, viewer, today, now);
        }
      }
      if manager.Some? then
        DelayAlertsCover(notifs, jobs, manager, viewer, today, now);
        DelayAlertsOnlyOverdue(notifs, jobs, manager, viewer, today, now);
        JobsPage(jobs, r)
      else
        JobsPage(jobs, r)
  }

  /**
   * An order as created has no mechanic and no estimate: it is on nobody's job list, it is
   * never overdue, and the job list writes no delay alert for it.
   */
  lemma NewOrderNotDelayed(id: nat, clientId: nat, vehicleId: nat, intake: Date, state: string,
                           orders: seq<Order>, m: Mechanic, notifs: seq<Notification>, manager: Option<Profile>,
                           viewer: Profile, today: Date, now: Instant)
    ensures var o := NewOrder(id, clientId, vehicleId, intake, state);
            o !in MyJobs(orders, m) && !Overdue(o, today) &&
            DelayAlertFor(notifs, o, manager, viewer, today, now) == []
  {
  }

  // ---------------------------------------------------------------- registrar_bitacora

  /** Why a view refused to act for a mechanic user. */
  datatype LogError = MechanicNotFound

  /** The outcome of a saved log entry: the order with it, the hook's events and the change request written. */
  datatype LogOutcome = LogOutcome(order: Order, events: seq<Event>, direct: seq<Notification>)

  /**
   * `registrar_bitacora` on a valid form: refused when the user's mechanic record is not
   * found; otherwise the entry is saved under that mechanic on whatever order was asked
   * for (assigned to them or not), its hook announces it, and a non-blank change request
   * goes, stripped, to the first shop manager.
   */
  function RegisterLog(o: Order, viewer: Profile, mechanics: seq<Mechanic>, profiles: seq<Profile>,
                       progress: Progress, description: string, minutes: nat, changeRequest: string,
                       now: Instant): (r: Result<LogOutcome, LogError>)
    ensures FindMechanic(Some(ViewerUser(viewer)), mechanics).None? <==> r.Failure?
    ensures r.Success? ==> var m := FindMechanic(Some(ViewerUser(viewer)), mechanics).value;
                           r.value.order.logs == o.logs + [LogEntry(Some(m), now, progress, description, minutes)] &&
                           r.value.order == o.(logs := r.value.order.logs) &&
                           |r.value.events| == 1 && r.value.events[0].kind == BitacoraRegistrada
    ensures r.Success? ==> (r.value.direct != [] <==> Strip(changeRequest) != [] && FirstWithRole(profiles, EncargadoTaller).Some?)
    ensures r.Success? && r.value.direct != [] ==>
              (r.value.direct == [Notification(NotifType.SolicitudCambio, Some(o.id), Some(viewer.id),
                                                Some(FirstWithRole(profiles, EncargadoTaller).value.id),
                                                Strip(changeRequest), now, false)])
  {
    match FindMechanic(Some(ViewerUser(viewer)), mechanics)
    case None => Failure(MechanicNotFound)
    case Some(m) =>
      var entry := LogEntry(Some(m), now, progress, description, minutes);
      var o' := o.(logs := o.logs + [entry]);
      var events := LogSaved(entry, o, true, profiles);
      var text := Strip(changeRequest);
      var direct := if text == [] then [] else
        match FirstWithRole(profiles, EncargadoTaller)
        case None => []
        case Some(p) => [Notification(NotifType.SolicitudCambio, Some(o.id), Some(viewer.id), Some(p.id), text, now, false)];
      Success(LogOutcome(o', events, direct))
  }

  /** The change request the view writes is the one `notificar_solicitud_cambio` would deliver with the stripped text. */
  lemma ChangeRequestIsServiceNotice(o: Order, viewer: Profile, mechanics: seq<Mechanic>, profiles: seq<Profile>,
                                     progress: Progress, description: string, minutes: nat, changeRequest: string,
                                     now: Instant)
    requires Strip(changeRequest) != []
    ensures var r := RegisterLog(o, viewer, mechanics, profiles, progress, description, minutes, changeRequest, now);
            r.Success? ==>
              r.value.direct == Notify(Hub(DefaultObservers(), {}, profiles, now),
                                       ChangeRequestEvent(o, Strip(changeRequest), Some(viewer)))
  {
    DefaultNotifyRouted(ChangeRequestEvent(o, Strip(changeRequest), Some(viewer)), profiles, now);
  }
}
