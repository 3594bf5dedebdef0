/**
 * The save hooks of core/signals.py as event generators. Saving a work order caches its
 * stored state before the write and compares it after; creating a log entry or a quality
 * control announces it. The events go to the default subject; `Deliver` turns a list of
 * events into the notifications the observers write for them.
 */
module Signals {
  import opened Wrappers
  import opened Text
  import opened Models
  import opened Observer

  /**
   * The process-wide `_estado_anterior_cache`, keyed by primary key; an order not yet
   * written has the key `None`.
   */
  type StateCache = map<Option<nat>, Option<string>>

  /** Python's truthiness of a primary key: absent or 0 is false. */
  predicate PkSet(pk: Option<nat>) {
    pk.Some? && pk.value != 0
  }

  /**
   * `guardar_estado_anterior`: for a saved order, cache the state of the stored row with
   * that key (none when the row is missing); for an order not yet written, cache none.
   */
  function PreSave(cache: StateCache, pk: Option<nat>, stored: Option<Order>): (c: StateCache)
    ensures pk in c && c.Keys == cache.Keys + {pk}
    ensures forall k :: k in cache && k != pk ==> c[k] == cache[k]
    ensures c[pk] == (if PkSet(pk) && stored.Some? then Some(stored.value.state) else None)
  {
    if PkSet(pk) then
      match stored
      case Some(row) => cache[pk := Some(row.state)]
      case None => cache[pk := None]
    else cache[pk := None]
  }

  /** `_estado_anterior_cache.get(pk)`. */
  function CachedState(cache: StateCache, pk: Option<nat>): Option<string> {
    if pk in cache then cache[pk] else None
  }

  datatype SaveOutcome = SaveOutcome(cache: StateCache, events: seq<Event>)

  /** The ESTADO_CAMBIADO event a save emits, issued by nobody. */
  function StateEvent(o: Order, previous: Option<string>): (e: Event)
    ensures e.kind == EstadoCambiado && e.order == Some(o) && e.sender == None
    ensures e.previousState == previous && e.newState == Some(o.state)
  {
    Event(EstadoCambiado, Some(o), None, previous, Some(o.state), None, None)
  }

  /**
   * `notificar_cambio_estado_ot`, run after the write with the order's key set: emit
   * ESTADO_CAMBIADO when the cached state differs from the new non-empty one, and only
   * then drop the cache entry.
   */
  function PostSave(cache: StateCache, o: Order): (r: SaveOutcome)
    ensures var prev := CachedState(cache, Some(o.id));
            (r.events != [] <==> prev != Some(o.state) && o.state != "") &&
            (r.events != [] ==> r.events == [StateEvent(o, prev)])
    ensures r.events != [] ==> r.cache == cache - {Some(o.id)}
    ensures r.events == [] ==> r.cache == cache
  {
    var prev := CachedState(cache, Some(o.id));
    if prev != Some(o.state) && o.state != "" then
      SaveOutcome(cache - {Some(o.id)}, [StateEvent(o, prev)])
    else SaveOutcome(cache, [])
  }

  /**
   * `OrdenTrabajo.save()` with both hooks: `pk` is the key before the write (none for a
   * new order), `stored` the row that key names, and `o` the order as written.
   */
  function SaveOrder(cache: StateCache, pk: Option<nat>, stored: Option<Order>, o: Order): (r: SaveOutcome)
    ensures |r.events| <= 1
    ensures PkSet(pk) && stored.Some? && o.id == pk.value ==>
              (r.events != [] <==> stored.value.state != o.state && o.state != "") &&
              (r.events != [] ==> r.events == [StateEvent(o, Some(stored.value.state))]) &&
              (pk in r.cache <==> r.events == [])
    ensures pk.None? && Some(o.id) !in cache ==>
              (r.events != [] <==> o.state != "") &&
              (r.events != [] ==> r.events == [StateEvent(o, None)]) &&
              None in r.cache && r.cache[None] == None
  {
    PostSave(PreSave(cache, pk, stored), o)
  }

  /**
   * Saving a stored order emits one ESTADO_CAMBIADO exactly when its state really
   * changed to a non-empty one, carrying both states; the cache keeps the entry
   * precisely when nothing was emitted.
   */
  lemma SaveExistingEmitsOnChange(cache: StateCache, stored: Order, o: Order)
    requires o.id == stored.id && o.id != 0
    ensures var r := SaveOrder(cache, Some(o.id), Some(stored), o);
            (r.events != [] <==> stored.state != o.state && o.state != "") &&
            (r.events != [] ==> r.events == [StateEvent(o, Some(stored.state))]) &&
            (Some(o.id) in r.cache <==> r.events == [])
  {
  }

  /**
   * Creating an order emits ESTADO_CAMBIADO with no previous state (its new key is not
   * cached), and the `None` entry written before the write stays behind.
   */
  lemma CreateEmits(cache: StateCache, o: Order)
    requires Some(o.id) !in cache && o.state != ""
    ensures var r := SaveOrder(cache, None, None, o);
            r.events == [StateEvent(o, None)] && None in r.cache && r.cache[None] == None
  {
  }

  /** Saving twice without a change in between emits nothing the second time. */
  lemma SecondSaveSilent(cache: StateCache, o: Order)
    requires o.id != 0
    ensures SaveOrder(SaveOrder(cache, Some(o.id), Some(o), o).cache, Some(o.id), Some(o), o).events == []
  {
  }

  /**
   * `notificar_bitacora_registrada`: a created log entry announces BITACORA_REGISTRADA for
   * its order, issued by its mechanic's profile when that resolves; an update announces nothing.
   */
  function LogSaved(log: LogEntry, order: Order, created: bool, profiles: seq<Profile>): (r: seq<Event>)
    ensures !created ==> r == []
    ensures created ==> |r| == 1 && r[0].kind == BitacoraRegistrada && r[0].order == Some(order)
    ensures created && log.mechanic.None? ==> r[0].sender == None
    ensures created && log.mechanic.Some? ==> r[0].sender == MechanicProfile(profiles, log.mechanic.value)
  {
    if !created then []
    else
      var sender := match log.mechanic
        case None => None
        case Some(m) => MechanicProfile(profiles, m);
      [SimpleEvent(BitacoraRegistrada, Some(order), sender)]
  }

  /**
   * `notificar_control_calidad`: a created quality control announces CONTROL_CALIDAD with
   * its result and then, only when approved, OT_FINALIZADA; both are issued by the first
   * shop manager.
   */
  function QcSaved(qc: QualityControl, order: Order, created: bool, profiles: seq<Profile>): (r: seq<Event>)
    ensures !created ==> r == []
    ensures created ==> |r| == (if qc.result == Aprobado then 2 else 1)
    ensures created ==> r[0].kind == ControlCalidad && r[0].result == Some(QcResultName(qc.result))
    ensures created && qc.result == Aprobado ==> r[1].kind == OtFinalizada
    ensures forall i :: 0 <= i < |r| ==> r[i].order == Some(order) &&
                                         r[i].sender == FirstWithRole(profiles, EncargadoTaller)
  {
    if !created then []
    else
      var sender := FirstWithRole(profiles, EncargadoTaller);
      var first := Event(ControlCalidad, Some(order), sender, None, None, None, Some(QcResultName(qc.result)));
      if QcResultName(qc.result) == "APROBADO" then [first, SimpleEvent(OtFinalizada, Some(order), sender)]
      else [first]
  }

  /** OT_FINALIZADA is announced exactly for an approved, newly created quality control. */
  lemma QcFinalizesIffApproved(qc: QualityControl, order: Order, created: bool, profiles: seq<Profile>)
    ensures (exists i :: 0 <= i < |QcSaved(qc, order, created, profiles)| &&
                         QcSaved(qc, order, created, profiles)[i].kind == OtFinalizada)
            <==> created && qc.result == Aprobado
  {
    var r := QcSaved(qc, order, created, profiles);
    if created && qc.result == Aprobado {
      assert r[1].kind == OtFinalizada;
    }
  }

  /** The notifications the default subject's observers write for a list of events, in order. */
  function Deliver(h: Hub, events: seq<Event>): seq<Notification>
    decreases |events|
  {
    if events == [] then []
    else Notify(h, events[0]) + Deliver(h, events[1..])
  }

  lemma {:induction false} DeliverAppend(h: Hub, a: seq<Event>, b: seq<Event>)
    ensures Deliver(h, a + b) == Deliver(h, a) + Deliver(h, b)
    decreases |a|
  {
    if a == [] {
      assert a + b == b;
    } else {
      assert (a + b)[0] == a[0] && (a + b)[1..] == a[1..] + b;
      DeliverAppend(h, a[1..], b);
    }
  }

  /** How many events of a kind a list holds. */
  function CountKind(events: seq<Event>, k: EventKind): (c: nat)
    ensures c <= |events|
    ensures c == 0 <==> forall i :: 0 <= i < |events| ==> events[i].kind != k
    decreases |events|
  {
    if events == [] then 0
    else
      var rest := CountKind(events[1..], k);
      assert (forall i :: 0 <= i < |events| ==> events[i].kind != k) <==>
             events[0].kind != k && forall i :: 0 <= i < |events[1..]| ==> events[1..][i].kind != k by {
        if events[0].kind != k && forall i :: 0 <= i < |events[1..]| ==> events[1..][i].kind != k {
          forall i | 0 <= i < |events| ensures events[i].kind != k {
            if i > 0 { assert events[i] == events[1..][i - 1]; }
          }
        }
      }
      (if events[0].kind == k then 1 else 0) + rest
  }

  lemma {:induction false} CountKindAppend(a: seq<Event>, b: seq<Event>, k: EventKind)
    ensures CountKind(a + b, k) == CountKind(a, k) + CountKind(b, k)
    decreases |a|
  {
    if a == [] {
      assert a + b == b;
    } else {
      assert (a + b)[0] == a[0] && (a + b)[1..] == a[1..] + b;
      CountKindAppend(a[1..], b, k);
    }
  }
}
