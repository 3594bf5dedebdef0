/**
 * AssignmentService (core/services/assignment_service.py): assigning a work order to a
 * mechanic and a zone, and listing the zones that can take work.
 */
module Assignment {
  import opened Wrappers
  import opened Models
  import opened Validators
  import opened Observer
  import opened Signals

  const AssignmentDoneMessage: string := "Asignación realizada correctamente."

  /** Everything an assignment does not write is as it was. */
  predicate SameOutsideAssignment(a: Order, b: Order) {
    a.id == b.id && a.clientId == b.clientId && a.vehicleId == b.vehicleId &&
    a.intake == b.intake && a.delivered == b.delivered && a.priority == b.priority &&
    a.services == b.services && a.parts == b.parts && a.logs == b.logs && a.qc == b.qc
  }

  /**
   * The writes both the service and the planning view make: mechanic, zone and estimated
   * date as given, EN_PROGRESO whatever the state was, and off the waiting list.
   */
  function AssignFields(o: Order, m: Mechanic, z: Zone, est: Date): (r: Order)
    ensures r.mechanic == Some(m) && r.zone == Some(z) && r.estimated == Some(est)
    ensures r.state == StateEnProgreso && !r.waitlisted
    ensures SameOutsideAssignment(o, r)
  {
    o.(mechanic := Some(m), zone := Some(z), estimated := Some(est), state := StateEnProgreso, waitlisted := false)
  }

  /** `(éxito, mensaje)` with the order as left, the signal cache and the events emitted, in order. */
  datatype AssignOutcome = AssignOutcome(ok: bool, message: string, order: Order, cache: StateCache, events: seq<Event>)

  /**
   * `asignar_ot`: refuse an estimated date before intake; otherwise write the assignment,
   * save the order (whose hooks may announce the state change) and notify ASIGNACION.
   * The order passed in is the stored row the save hook reads back.
   */
  function AssignOrder(cache: StateCache, o: Order, m: Mechanic, z: Zone, est: Date, sender: Option<Profile>): (r: AssignOutcome)
    ensures !r.ok <==> est < o.intake
    ensures !r.ok ==> r.message == EstimatedBeforeIntakeMessage && r.order == o && r.cache == cache && r.events == []
    ensures r.ok ==> r.message == AssignmentDoneMessage
    ensures r.ok ==> r.order.mechanic == Some(m) && r.order.zone == Some(z) && r.order.estimated == Some(est) &&
                     r.order.state == StateEnProgreso && !r.order.waitlisted && SameOutsideAssignment(o, r.order)
    ensures r.ok ==> var saved := SaveOrder(cache, Some(o.id), Some(o), r.order);
                     r.cache == saved.cache && r.events == saved.events + [SimpleEvent(Asignacion, Some(r.order), sender)]
  {
    if est < o.intake then AssignOutcome(false, EstimatedBeforeIntakeMessage, o, cache, [])
    else
      var o' := AssignFields(o, m, z, est);
      var saved := SaveOrder(cache, Some(o.id), Some(o), o');
      AssignOutcome(true, AssignmentDoneMessage, o', saved.cache, saved.events + [SimpleEvent(Asignacion, Some(o'), sender)])
  }

  /** The service's date guard is the estimated-date validator: equal dates pass. */
  lemma AssignGuardIsValidator(cache: StateCache, o: Order, m: Mechanic, z: Zone, est: Date, sender: Option<Profile>)
    ensures AssignOrder(cache, o, m, z, est, sender).ok <==> ValidateEstimatedAfterIntake(Some(est), Some(o.intake)).Valid?
    ensures est == o.intake ==> AssignOrder(cache, o, m, z, est, sender).ok
  {
  }

  /**
   * A successful assignment emits exactly one ASIGNACION event, carrying the issuer, and a
   * refused one emits none; the save before it announces the state change exactly when the
   * order was not already EN_PROGRESO.
   */
  lemma AssignmentEvents(cache: StateCache, o: Order, m: Mechanic, z: Zone, est: Date, sender: Option<Profile>)
    requires o.id != 0
    ensures var r := AssignOrder(cache, o, m, z, est, sender);
            CountKind(r.events, Asignacion) == (if r.ok then 1 else 0) &&
            (r.ok ==> r.events[|r.events| - 1].sender == sender &&
                      (CountKind(r.events, EstadoCambiado) == 1 <==> o.state != StateEnProgreso))
  {
    var r := AssignOrder(cache, o, m, z, est, sender);
    if r.ok {
      var saved := SaveOrder(cache, Some(o.id), Some(o), r.order);
      var last := [SimpleEvent(Asignacion, Some(r.order), sender)];
      SaveExistingEmitsOnChange(cache, o, r.order);
      CountKindAppend(saved.events, last, Asignacion);
      CountKindAppend(saved.events, last, EstadoCambiado);
      assert last[1..] == [];
      if saved.events != [] {
        assert saved.events[1..] == [];
      }
    }
  }

  /**
   * Delivered to the default subject, the ASIGNACION event reaches the assigned mechanic's
   * profile, and only it, when that profile resolves.
   */
  lemma AssignmentReachesMechanic(cache: StateCache, o: Order, m: Mechanic, z: Zone, est: Date,
                                  sender: Option<Profile>, profiles: seq<Profile>, now: Instant)
    requires o.intake <= est
    ensures var r := AssignOrder(cache, o, m, z, est, sender);
            var w := Notify(Hub(DefaultObservers(), {}, profiles, now), r.events[|r.events| - 1]);
            |w| == (if MechanicProfile(profiles, m).Some? then 1 else 0) &&
            (|w| == 1 ==> w[0].recipient == Some(MechanicProfile(profiles, m).value.id) &&
                          w[0].kind == MensajeGeneral && w[0].orderId == Some(o.id) && w[0].sender == ProfileId(sender))
  {
    var r := AssignOrder(cache, o, m, z, est, sender);
    DefaultNotifyRouted(r.events[|r.events| - 1], profiles, now);
  }

  /** `obtener_zonas_disponibles`: the active zones, in table order. */
  function ActiveZones(zones: seq<Zone>): (r: seq<Zone>)
    ensures forall z :: z in r <==> z in zones && z.active
    ensures forall z :: multiset(r)[z] == if z.active then multiset(zones)[z] else 0
    ensures |r| <= |zones|
    decreases |zones|
  {
    if zones == [] then []
    else
      assert forall z :: z in zones <==> z == zones[0] || z in zones[1..];
      assert zones == [zones[0]] + zones[1..];
      (if zones[0].active then [zones[0]] else []) + ActiveZones(zones[1..])
  }

  /** A zone as created (capacity 5, active) is among the zones the service offers. */
  lemma NewZoneOffered(zones: seq<Zone>, id: nat, name: string)
    requires NewZone(id, name) in zones
    ensures NewZone(id, name) in ActiveZones(zones)
    ensures NewZone(id, name).capacity == 5
  {
  }
}
