/**
 * The inventory ledger (core/services/inventory_manager.py and the stock views in
 * core/views.py): stock queries, entry and exit movements, the low-stock selection and
 * the low-stock alert that is raised at most once per part name in any 24 hours.
 * The parts table is a sequence in primary-key order; ids are unique in it.
 */
module Inventory {
  import opened Wrappers
  import opened Text
  import opened Models

  /** The default `umbral` of `verificar_stock_bajo` and the bound the inventory view uses. */
  const LowStockThreshold: int := 3

  /** The de-duplication window of the low-stock alert: 24 hours, in seconds. */
  const AlertWindow: int := 86400

  predicate UniqueIds(parts: seq<Part>) {
    forall i, j :: 0 <= i < j < |parts| ==> parts[i].id != parts[j].id
  }

  predicate HasPart(parts: seq<Part>, id: nat) {
    exists i :: 0 <= i < |parts| && parts[i].id == id
  }

  /** `Repuesto.objects.get(id=id)`: the position of the row with that id, if any. */
  function FindPart(parts: seq<Part>, id: nat): (r: Option<nat>)
    ensures r.None? <==> !HasPart(parts, id)
    ensures r.Some? ==> r.value < |parts| && parts[r.value].id == id
    decreases |parts|
  {
    if parts == [] then None
    else if parts[0].id == id then Some(0)
    else
      match FindPart(parts[1..], id)
      case None =>
        assert !HasPart(parts, id) by {
          forall i | 0 <= i < |parts| ensures parts[i].id != id {
            if i > 0 { assert parts[i] == parts[1..][i - 1]; }
          }
        }
        None
      case Some(k) => Some(k + 1)
  }

  /** With unique ids the row `get` finds is the only one carrying the id. */
  lemma FindPartUnique(parts: seq<Part>, id: nat, i: nat)
    requires UniqueIds(parts) && i < |parts| && parts[i].id == id
    ensures FindPart(parts, id) == Some(i)
  {
  }

  datatype StockError = UnknownPart(id: nat)

  /**
   * `verificar_stock`: whether the part holds at least `required` units; an unknown
   * part is an error (the ValidationError the method raises).
   */
  function CheckStock(parts: seq<Part>, id: nat, required: int): (r: Result<bool, StockError>)
    ensures r.Failure? <==> !HasPart(parts, id)
    ensures r.Failure? ==> r.error == UnknownPart(id)
    ensures r.Success? ==> exists i :: 0 <= i < |parts| && parts[i].id == id &&
                                       (r.value <==> parts[i].stock >= required)
  {
    match FindPart(parts, id)
    case None => Failure(UnknownPart(id))
    case Some(i) => Success(parts[i].stock >= required)
  }

  /** `obtener_stock_disponible`: the stock of the part, and 0 for an unknown part. */
  function AvailableStock(parts: seq<Part>, id: nat): (n: nat)
    ensures !HasPart(parts, id) ==> n == 0
    ensures HasPart(parts, id) ==> exists i :: 0 <= i < |parts| && parts[i].id == id && n == parts[i].stock
  {
    match FindPart(parts, id)
    case None => 0
    case Some(i) => parts[i].stock
  }

  /** The two queries agree: a known part has enough stock exactly when its available stock suffices. */
  lemma CheckStockAgreesWithAvailable(parts: seq<Part>, id: nat, required: int)
    requires HasPart(parts, id)
    ensures CheckStock(parts, id, required) == Success(AvailableStock(parts, id) >= required)
  {
  }

  /** `verificar_stock_bajo(umbral)`: the parts whose stock is below the threshold, in table order. */
  function LowStock(parts: seq<Part>, threshold: int): (r: seq<Part>)
    ensures forall p :: p in r <==> p in parts && p.stock < threshold
    ensures forall p :: multiset(r)[p] == if p.stock < threshold then multiset(parts)[p] else 0
    ensures |r| <= |parts|
    decreases |parts|
  {
    if parts == [] then []
    else
      var rest := LowStock(parts[1..], threshold);
      assert forall p :: p in parts <==> p == parts[0] || p in parts[1..];
      assert parts == [parts[0]] + parts[1..];
      if parts[0].stock < threshold then [parts[0]] + rest else rest
  }

  // ---------------------------------------------------------------- movements

  datatype MoveError =
    | MissingPart(id: nat)
    | InsufficientStock(available: nat)
    | InvalidKind(kind: string)
    | NegativeStock(stock: int)  // the stock column is unsigned: saving a negative stock raises

  /** The table with the stock of the row at position `i` replaced. */
  function SetStock(parts: seq<Part>, i: nat, stock: nat): (r: seq<Part>)
    requires i < |parts|
    ensures |r| == |parts| && r[i] == parts[i].(stock := stock)
    ensures forall j :: 0 <= j < |parts| && j != i ==> r[j] == parts[j]
  {
    parts[i := parts[i].(stock := stock)]
  }

  /**
   * `realizar_movimiento_stock`: an "entrada" adds the quantity; a "salida" subtracts it
   * unless it exceeds the stock; any other kind, and an unknown part, fail. The quantity is
   * any integer: an entry whose negative quantity would take the stock below 0 is refused
   * by the unsigned stock column when saved, while a negative exit passes the guard and
   * raises the stock. A failure leaves the table as it was (the caller keeps its old table).
   */
  function MoveStock(parts: seq<Part>, id: nat, kind: string, qty: int): (r: Result<seq<Part>, MoveError>)
    ensures !HasPart(parts, id) ==> r == Failure(MissingPart(id))
    ensures HasPart(parts, id) && kind != "entrada" && kind != "salida" ==> r == Failure(InvalidKind(kind))
    ensures r.Success? ==> |r.value| == |parts|
    ensures r.Success? ==>
              exists i :: (0 <= i < |parts| && parts[i].id == id &&
                           (forall j :: 0 <= j < |parts| && j != i ==> r.value[j] == parts[j]) &&
                           r.value[i] == parts[i].(stock := r.value[i].stock) &&
                           (kind == "entrada" ==> r.value[i].stock == parts[i].stock + qty) &&
                           (kind == "salida" ==> r.value[i].stock + qty == parts[i].stock))
    ensures r.Failure? && kind == "salida" && HasPart(parts, id) ==>
              exists i :: 0 <= i < |parts| && parts[i].id == id &&
                          parts[i].stock < qty && r.error == InsufficientStock(parts[i].stock)
    ensures r.Failure? && kind == "entrada" && HasPart(parts, id) ==>
              exists i :: 0 <= i < |parts| && parts[i].id == id &&
                          parts[i].stock + qty < 0 && r.error == NegativeStock(parts[i].stock + qty)
  {
    match FindPart(parts, id)
    case None => Failure(MissingPart(id))
    case Some(i) =>
      if kind == "entrada" then
        if parts[i].stock + qty < 0 then Failure(NegativeStock(parts[i].stock + qty))
        else Success(SetStock(parts, i, parts[i].stock + qty))
      else if kind == "salida" then
        if parts[i].stock < qty then Failure(InsufficientStock(parts[i].stock))
        else Success(SetStock(parts, i, parts[i].stock - qty))
      else Failure(InvalidKind(kind))
  }

  /** An exit is refused exactly when it asks for more than the stock of a known part. */
  lemma SalidaRefusedIff(parts: seq<Part>, id: nat, qty: int)
    requires HasPart(parts, id)
    ensures MoveStock(parts, id, "salida", qty).Failure? <==> AvailableStock(parts, id) < qty
  {
  }

  /** An entry is refused exactly when its (negative) quantity would leave the stock below 0. */
  lemma EntradaRefusedIff(parts: seq<Part>, id: nat, qty: int)
    requires HasPart(parts, id)
    ensures MoveStock(parts, id, "entrada", qty).Failure? <==> AvailableStock(parts, id) + qty < 0
  {
  }

  /** A negative exit is never refused and raises the stock by the quantity's magnitude. */
  lemma NegativeSalidaRaisesStock(parts: seq<Part>, id: nat, qty: int)
    requires HasPart(parts, id) && qty < 0
    ensures MoveStock(parts, id, "salida", qty).Success?
    ensures AvailableStock(MoveStock(parts, id, "salida", qty).value, id) == AvailableStock(parts, id) - qty
  {
    var i := FindPart(parts, id).value;
    var after := MoveStock(parts, id, "salida", qty).value;
    MoveAt(parts, id, i, "salida", qty);
    FindPartSameIds(parts, after, id);
  }

  /** An entry of k units followed by an exit of k units restores the table. */
  lemma EntradaThenSalida(parts: seq<Part>, id: nat, k: nat)
    requires HasPart(parts, id)
    ensures MoveStock(parts, id, "entrada", k).Success?
    ensures MoveStock(MoveStock(parts, id, "entrada", k).value, id, "salida", k) == Success(parts)
  {
    var i := FindPart(parts, id).value;
    var up := SetStock(parts, i, parts[i].stock + k);
    MoveAt(parts, id, i, "entrada", k);
    FindPartSameIds(parts, up, id);
    MoveAt(up, id, i, "salida", k);
    assert SetStock(up, i, parts[i].stock) == parts;
  }

  /** A movement on the row `get` finds, spelled out. */
  lemma MoveAt(parts: seq<Part>, id: nat, i: nat, kind: string, qty: int)
    requires FindPart(parts, id) == Some(i)
    ensures kind == "entrada" && parts[i].stock + qty >= 0 ==> MoveStock(parts, id, kind, qty) == Success(SetStock(parts, i, parts[i].stock + qty))
    ensures kind == "salida" && qty <= parts[i].stock ==>
              MoveStock(parts, id, kind, qty) == Success(SetStock(parts, i, parts[i].stock - qty))
  {
  }

  /** Stock updates never change ids, so lookups find the same position. */
  lemma {:induction false} FindPartSameIds(a: seq<Part>, b: seq<Part>, id: nat)
    requires |a| == |b| && forall j :: 0 <= j < |a| ==> a[j].id == b[j].id
    ensures FindPart(a, id) == FindPart(b, id)
    decreases |a|
  {
    if a != [] {
      FindPartSameIds(a[1..], b[1..], id);
    }
  }

  /** The two kinds the stock-movement form offers. */
  datatype MoveKind = Entrada | Salida

  function KindName(k: MoveKind): string {
    match k
    case Entrada => "entrada"
    case Salida => "salida"
  }

  /**
   * The `movimiento_repuesto` view on one part: the form only offers the two kinds and
   * a quantity of at least 1; an exit above the stock is refused with the part unchanged.
   */
  function MoveView(p: Part, kind: MoveKind, qty: nat): (r: Result<Part, MoveError>)
    requires qty >= 1
    ensures r.Success? ==> r.value == p.(stock := r.value.stock)
    ensures kind == Entrada ==> r == Success(p.(stock := p.stock + qty))
    ensures kind == Salida ==> (r.Failure? <==> p.stock < qty)
    ensures kind == Salida && r.Success? ==> r.value.stock + qty == p.stock
  {
    match kind
    case Entrada => Success(p.(stock := p.stock + qty))
    case Salida =>
      if p.stock < qty then Failure(InsufficientStock(p.stock))
      else Success(p.(stock := p.stock - qty))
  }

  /** The view and the service agree on every part of the table. */
  lemma MoveViewAgreesWithService(parts: seq<Part>, i: nat, kind: MoveKind, qty: nat)
    requires UniqueIds(parts) && i < |parts| && qty >= 1
    ensures var s := MoveStock(parts, parts[i].id, KindName(kind), qty);
            match MoveView(parts[i], kind, qty)
            case Success(p) => s == Success(parts[i := p])
            case Failure(e) => s == Failure(e)
  {
    FindPartUnique(parts, parts[i].id, i);
  }

  // ---------------------------------------------------------------- low-stock alert

  /** The text the de-duplication looks for in earlier alerts. */
  function AlertNeedle(name: string): string {
    "Repuesto " + name + " bajo en stock"
  }

  /** The message of a new low-stock alert. */
  function AlertMessage(p: Part): (m: string)
    ensures AlertNeedle(p.name) <= m
  {
    AlertNeedle(p.name) + " (solo " + NatToString(p.stock) + " unidades)."
  }

  /** A general, order-less notification of the last 24 hours that mentions the part. */
  predicate RecentAlert(n: Notification, name: string, now: Instant) {
    n.kind == MensajeGeneral && n.orderId == None &&
    Contains(n.message, AlertNeedle(name)) && n.createdAt >= now - AlertWindow
  }

  predicate HasRecentAlert(notifs: seq<Notification>, name: string, now: Instant) {
    exists i :: 0 <= i < |notifs| && RecentAlert(notifs[i], name, now)
  }

  /**
   * `crear_alerta_stock_bajo`: nothing when a recent alert for the part exists or when
   * there is no shop manager; otherwise one general alert with no order, from `sender`
   * to the first shop manager, created at `now`.
   */
  function LowStockAlert(notifs: seq<Notification>, profiles: seq<Profile>, part: Part,
                         sender: Option<Profile>, now: Instant): (r: Option<Notification>)
    ensures HasRecentAlert(notifs, part.name, now) ==> r == None
    ensures FirstWithRole(profiles, EncargadoTaller) == None ==> r == None
    ensures r.Some? <==> !HasRecentAlert(notifs, part.name, now) && FirstWithRole(profiles, EncargadoTaller).Some?
    ensures r.Some? ==> r.value.kind == MensajeGeneral && r.value.orderId == None && !r.value.read &&
                        r.value.recipient == ProfileId(FirstWithRole(profiles, EncargadoTaller)) &&
                        r.value.sender == ProfileId(sender) && r.value.message == AlertMessage(part)
    ensures r.Some? ==> RecentAlert(r.value, part.name, now)
  {
    if HasRecentAlert(notifs, part.name, now) then None
    else
      match FirstWithRole(profiles, EncargadoTaller)
      case None => None
      case Some(m) =>
        var n := Notification(MensajeGeneral, None, ProfileId(sender), Some(m.id), AlertMessage(part), now, false);
        ContainsAt(n.message, AlertNeedle(part.name), 0);
        Some(n)
  }

  /** The alerts table after one call of `crear_alerta_stock_bajo`. */
  function RaiseAlert(notifs: seq<Notification>, profiles: seq<Profile>, part: Part,
                      sender: Option<Profile>, now: Instant): seq<Notification>
  {
    match LowStockAlert(notifs, profiles, part, sender, now)
    case None => notifs
    case Some(n) => notifs + [n]
  }

  /** An alert found recent stays recent when more rows are added or time goes back. */
  lemma RecentAlertPersists(notifs: seq<Notification>, extra: seq<Notification>, name: string, now: Instant, later: Instant)
    requires HasRecentAlert(notifs, name, later) && now <= later
    ensures HasRecentAlert(notifs + extra, name, now)
  {
    var i :| 0 <= i < |notifs| && RecentAlert(notifs[i], name, later);
    assert (notifs + extra)[i] == notifs[i];
  }

  /**
   * Two calls for the same part within 24 hours create exactly one alert, when a shop
   * manager exists and no recent alert existed before the first call.
   */
  lemma AlertOncePerWindow(notifs: seq<Notification>, profiles: seq<Profile>, part: Part,
                           s1: Option<Profile>, s2: Option<Profile>, t1: Instant, t2: Instant)
    requires FirstWithRole(profiles, EncargadoTaller).Some?
    requires !HasRecentAlert(notifs, part.name, t1)
    requires t1 <= t2 <= t1 + AlertWindow
    ensures LowStockAlert(notifs, profiles, part, s1, t1).Some?
    ensures var after := RaiseAlert(notifs, profiles, part, s1, t1);
            |after| == |notifs| + 1 &&
            LowStockAlert(after, profiles, part, s2, t2) == None
  {
    var after := RaiseAlert(notifs, profiles, part, s1, t1);
    var n := LowStockAlert(notifs, profiles, part, s1, t1).value;
    assert after[|notifs|] == n;
    assert RecentAlert(after[|notifs|], part.name, t2);
  }

  /** One step of the inventory view's sweep: raise the alert for a part below 3 units. */
  function SweepStep(notifs: seq<Notification>, profiles: seq<Profile>, part: Part,
                     sender: Option<Profile>, now: Instant): seq<Notification>
  {
    if part.stock < LowStockThreshold then RaiseAlert(notifs, profiles, part, sender, now) else notifs
  }

  /**
   * The alert the inventory view writes for one of the listed parts below 3 units: general,
   * with no order, unread, from the viewer to the first shop manager, with the part's text.
   */
  ghost predicate SweptAlert(n: Notification, parts: seq<Part>, profiles: seq<Profile>,
                             sender: Option<Profile>, now: Instant) {
    exists p :: p in parts && p.stock < LowStockThreshold &&
                n == Notification(MensajeGeneral, None, ProfileId(sender),
                                  ProfileId(FirstWithRole(profiles, EncargadoTaller)), AlertMessage(p), now, false)
  }

  /** What one step of the sweep appends is the alert of that part, and only when it is low. */
  lemma SweepStepAppends(notifs: seq<Notification>, parts: seq<Part>, profiles: seq<Profile>,
                         sender: Option<Profile>, now: Instant)
    requires parts != []
    ensures var step := SweepStep(notifs, profiles, parts[0], sender, now);
            notifs <= step &&
            forall k :: |notifs| <= k < |step| ==> SweptAlert(step[k], parts, profiles, sender, now)
  {
    var step := SweepStep(notifs, profiles, parts[0], sender, now);
    if |step| > |notifs| {
      assert |step| == |notifs| + 1;
      assert step[|notifs|] == LowStockAlert(notifs, profiles, parts[0], sender, now).value;
      assert parts[0] in parts;
    }
  }

  /** The rows a sweep appends, seen from the whole list once the first part is put back. */
  lemma SweepConsAlerts(parts: seq<Part>, notifs: seq<Notification>, profiles: seq<Profile>,
                        sender: Option<Profile>, now: Instant, r: seq<Notification>)
    requires parts != []
    requires var step := SweepStep(notifs, profiles, parts[0], sender, now);
             step <= r && forall k :: |step| <= k < |r| ==> SweptAlert(r[k], parts[1..], profiles, sender, now)
    ensures notifs <= r
    ensures forall k :: |notifs| <= k < |r| ==> SweptAlert(r[k], parts, profiles, sender, now)
    ensures forall k :: |notifs| <= k < |r| ==> r[k].kind == MensajeGeneral && r[k].orderId == None
  {
    var step := SweepStep(notifs, profiles, parts[0], sender, now);
    SweepStepAppends(notifs, parts, profiles, sender, now);
    forall k | |notifs| <= k < |r|
      ensures SweptAlert(r[k], parts, profiles, sender, now)
    {
      if k < |step| {
        assert r[k] == step[k];
      } else {
        assert SweptAlert(r[k], parts[1..], profiles, sender, now);
        var p :| p in parts[1..] && p.stock < LowStockThreshold &&
                 r[k] == Notification(MensajeGeneral, None, ProfileId(sender),
                                      ProfileId(FirstWithRole(profiles, EncargadoTaller)), AlertMessage(p), now, false);
        assert p in parts;
      }
    }
  }

  /** The first part's alert survives the rest of the sweep. */
  lemma SweepConsCovers(parts: seq<Part>, notifs: seq<Notification>, profiles: seq<Profile>,
                        sender: Option<Profile>, now: Instant, r: seq<Notification>)
    requires parts != [] && FirstWithRole(profiles, EncargadoTaller).Some?
    requires SweepStep(notifs, profiles, parts[0], sender, now) <= r
    requires forall p :: p in parts[1..] && p.stock < LowStockThreshold ==> HasRecentAlert(r, p.name, now)
    ensures forall p :: p in parts && p.stock < LowStockThreshold ==> HasRecentAlert(r, p.name, now)
  {
    var step := SweepStep(notifs, profiles, parts[0], sender, now);
    if parts[0].stock < LowStockThreshold {
      if !HasRecentAlert(notifs, parts[0].name, now) {
        assert step[|notifs|] == LowStockAlert(notifs, profiles, parts[0], sender, now).value;
      }
      RecentAlertPersists(step, r[|step|..], parts[0].name, now, now);
      assert step + r[|step|..] == r;
    }
    assert forall p :: p in parts ==> p == parts[0] || p in parts[1..];
  }

  /**
   * The `inventario` view's sweep over the parts it lists: each part below 3 units gets
   * the alert unless one is recent. Afterwards, with a shop manager present, every such
   * part has a recent alert; everything appended is the alert of a listed part below
   * 3 units; without a shop manager nothing is written.
   */
  function Sweep(parts: seq<Part>, notifs: seq<Notification>, profiles: seq<Profile>,
                 sender: Option<Profile>, now: Instant): (r: seq<Notification>)
    ensures notifs <= r
    ensures forall k :: |notifs| <= k < |r| ==> r[k].kind == MensajeGeneral && r[k].orderId == None
    ensures forall k :: |notifs| <= k < |r| ==> SweptAlert(r[k], parts, profiles, sender, now)
    ensures FirstWithRole(profiles, EncargadoTaller).Some? ==>
              forall p :: p in parts && p.stock < LowStockThreshold ==> HasRecentAlert(r, p.name, now)
    ensures FirstWithRole(profiles, EncargadoTaller).None? ==> r == notifs
    decreases |parts|
  {
    if parts == [] then notifs
    else
      var step := SweepStep(notifs, profiles, parts[0], sender, now);
      var r := Sweep(parts[1..], step, profiles, sender, now);
      SweepConsAlerts(parts, notifs, profiles, sender, now, r);
      if FirstWithRole(profiles, EncargadoTaller).Some? then
        SweepConsCovers(parts, notifs, profiles, sender, now, r);
        r
      else r
  }

  /** Running the view again at the same instant raises nothing new. */
  lemma {:induction false} SweepSettled(parts: seq<Part>, notifs: seq<Notification>, profiles: seq<Profile>,
                                        sender: Option<Profile>, now: Instant)
    requires forall p :: p in parts && p.stock < LowStockThreshold ==> HasRecentAlert(notifs, p.name, now)
    ensures Sweep(parts, notifs, profiles, sender, now) == notifs
    decreases |parts|
  {
    if parts != [] {
      assert SweepStep(notifs, profiles, parts[0], sender, now) == notifs;
      assert forall p :: p in parts[1..] ==> p in parts;
      SweepSettled(parts[1..], notifs, profiles, sender, now);
    }
  }

  /** The sweep is idempotent at a fixed instant. */
  lemma SweepIdempotent(parts: seq<Part>, notifs: seq<Notification>, profiles: seq<Profile>,
                        sender: Option<Profile>, now: Instant)
    ensures var once := Sweep(parts, notifs, profiles, sender, now);
            Sweep(parts, once, profiles, sender, now) == once
  {
    var once := Sweep(parts, notifs, profiles, sender, now);
    if FirstWithRole(profiles, EncargadoTaller).Some? {
      SweepSettled(parts, once, profiles, sender, now);
    }
  }

  /**
   * A part as created (stock 0, DISPONIBLE) is listed as low, and the inventory page leaves
   * it with a recent alert when a shop manager exists; with unique ids no positive quantity
   * of it is in stock and every exit of it is refused.
   */
  lemma NewPartNeedsRestock(parts: seq<Part>, i: nat, id: nat, code: string, name: string, priceBuy: nat,
                            priceSell: nat, required: int, notifs: seq<Notification>, profiles: seq<Profile>,
                            sender: Option<Profile>, now: Instant)
    requires i < |parts| && parts[i] == NewPart(id, code, name, priceBuy, priceSell)
    ensures parts[i] in LowStock(parts, LowStockThreshold)
    ensures FirstWithRole(profiles, EncargadoTaller).Some? ==>
              HasRecentAlert(Sweep(parts, notifs, profiles, sender, now), name, now)
    ensures UniqueIds(parts) && required >= 1 ==>
              CheckStock(parts, id, required) == Success(false) &&
              MoveStock(parts, id, "salida", required) == Failure(InsufficientStock(0))
  {
    assert parts[i] in parts;
    if UniqueIds(parts) {
      FindPartUnique(parts, id, i);
    }
  }
}
