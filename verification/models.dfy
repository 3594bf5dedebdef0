/**
 * The workshop's entities (core/models.py) as immutable records, the derived money
 * totals of a work order, and the field defaults a freshly created row receives.
 * Tables are sequences kept in primary-key order, so the ORM's `.first()` on an
 * unordered query is the first matching element.
 */
module Models {
  import opened Wrappers
  import opened Text

  /** A calendar date, as a day number. */
  type Date = int

  /** A point in time, in seconds. */
  type Instant = int

  datatype Role = Recepcionista | EncargadoTaller | Mecanico | EncargadoBodega

  /** The framework user a profile belongs to. */
  datatype Account = Account(username: string, firstName: string, lastName: string)

  /** PerfilUsuario: one role per account. */
  datatype Profile = Profile(id: nat, account: Account, role: Role)

  /** `request.user`: possibly anonymous, possibly without a profile. */
  datatype User = User(authenticated: bool, account: Account, profile: Option<Profile>)

  datatype Mechanic = Mechanic(id: nat, name: string, helpers: nat)

  datatype Zone = Zone(id: nat, name: string, capacity: nat, active: bool)

  datatype PartStatus = Disponible | Agotado | Descontinuado

  /** Repuesto: stock is a PositiveIntegerField, hence a `nat`. */
  datatype Part = Part(id: nat, code: string, name: string, stock: nat,
                       priceBuy: nat, priceSell: nat, status: PartStatus)

  datatype ToolStatus = Operativa | EnMantencion | FueraServicio

  /** Herramienta; `custodian` is the id of the responsible mechanic, if any. */
  datatype Tool = Tool(id: nat, code: string, name: string, quantity: nat,
                       status: ToolStatus, custodian: Option<nat>)

  /** HerramientaEnUso: open while `returnedAt` is absent. */
  datatype ToolUsage = ToolUsage(orderId: nat, toolId: nat, assignedAt: Instant, returnedAt: Option<Instant>)

  datatype Priority = Baja | Media | Alta

  /** ItemServicio: the applied price of one service. */
  datatype ServiceLine = ServiceLine(serviceId: nat, price: nat)

  /** ItemRepuesto: a quantity of one part at a unit price. */
  datatype PartLine = PartLine(partId: nat, quantity: nat, unitPrice: nat)

  datatype Progress = Pendiente | EnProceso | EnPausa | Finalizado

  /** BitacoraTrabajo. */
  datatype LogEntry = LogEntry(mechanic: Option<Mechanic>, createdAt: Instant, progress: Progress,
                               description: string, minutes: nat)

  datatype QcResult = Aprobado | Rechazado

  /** ControlCalidad with its checklist flags. */
  datatype QualityControl = QualityControl(responsible: string, result: QcResult, remarks: string,
                                           roadTest: bool, fluids: bool, lights: bool,
                                           toolsRemoved: bool, clean: bool)

  /**
   * OrdenTrabajo as an aggregate: its service and part lines, its log entries and its
   * quality control (a one-to-one relation, so at most one by construction).
   * `state` is the name of the EstadoOT row it points to.
   */
  datatype Order = Order(id: nat, clientId: nat, vehicleId: nat,
                         mechanic: Option<Mechanic>, zone: Option<Zone>,
                         intake: Date, estimated: Option<Date>, delivered: Option<Date>,
                         state: string, priority: Priority, waitlisted: bool,
                         services: seq<ServiceLine>, parts: seq<PartLine>,
                         logs: seq<LogEntry>, qc: Option<QualityControl>)

  datatype NotifType = SolicitudCambio | AtrasoTrabajo | MensajeGeneral

  /** Notificacion; sender and recipient are profile ids. */
  datatype Notification = Notification(kind: NotifType, orderId: Option<nat>,
                                       sender: Option<nat>, recipient: Option<nat>,
                                       message: string, createdAt: Instant, read: bool)

  const StatePendiente: string := "PENDIENTE"
  const StateEnProgreso: string := "EN_PROGRESO"
  const StateFinalizado: string := "FINALIZADO"

  function QcResultName(r: QcResult): string {
    match r
    case Aprobado => "APROBADO"
    case Rechazado => "RECHAZADO"
  }

  // ---------------------------------------------------------------- totals

  /** ItemRepuesto.total: nothing exactly when the quantity or the price is nothing, and at least the unit price otherwise. */
  function PartLineTotal(l: PartLine): (t: nat)
    ensures t == 0 <==> l.quantity == 0 || l.unitPrice == 0
    ensures l.quantity >= 1 ==> t >= l.unitPrice
  {
    l.quantity * l.unitPrice
  }

  /** The sum of the service prices: it bounds each price, and is 0 exactly when every price is. */
  function SumServices(lines: seq<ServiceLine>): (t: nat)
    ensures forall i :: 0 <= i < |lines| ==> lines[i].price <= t
    ensures t == 0 <==> forall i :: 0 <= i < |lines| ==> lines[i].price == 0
    decreases |lines|
  {
    if lines == [] then 0
    else
      var rest := SumServices(lines[1..]);
      assert forall i :: 1 <= i < |lines| ==> lines[i] == lines[1..][i - 1];
      lines[0].price + rest
  }

  /** The sum of the part-line totals: it bounds each line, and is 0 exactly when every line is. */
  function SumParts(lines: seq<PartLine>): (t: nat)
    ensures forall i :: 0 <= i < |lines| ==> PartLineTotal(lines[i]) <= t
    ensures t == 0 <==> forall i :: 0 <= i < |lines| ==> PartLineTotal(lines[i]) == 0
    decreases |lines|
  {
    if lines == [] then 0
    else
      var rest := SumParts(lines[1..]);
      assert forall i :: 1 <= i < |lines| ==> lines[i] == lines[1..][i - 1];
      PartLineTotal(lines[0]) + rest
  }

  /** OrdenTrabajo.total_servicios: at least each applied price, and 0 exactly when all are free. */
  function TotalServices(o: Order): (t: nat)
    ensures forall i :: 0 <= i < |o.services| ==> o.services[i].price <= t
    ensures t == 0 <==> forall i :: 0 <= i < |o.services| ==> o.services[i].price == 0
  {
    SumServices(o.services)
  }

  /** OrdenTrabajo.total_repuestos: at least each line's total, and 0 exactly when every line totals 0. */
  function TotalParts(o: Order): (t: nat)
    ensures forall i :: 0 <= i < |o.parts| ==> PartLineTotal(o.parts[i]) <= t
    ensures t == 0 <==> forall i :: 0 <= i < |o.parts| ==> PartLineTotal(o.parts[i]) == 0
  {
    SumParts(o.parts)
  }

  /**
   * OrdenTrabajo.total_general: covers both subtotals, and the order costs nothing exactly
   * when every service is free and every part line totals 0.
   */
  function TotalGeneral(o: Order): (t: nat)
    ensures TotalServices(o) <= t && TotalParts(o) <= t
    ensures t == 0 <==> (forall i :: 0 <= i < |o.services| ==> o.services[i].price == 0) &&
                        (forall i :: 0 <= i < |o.parts| ==> PartLineTotal(o.parts[i]) == 0)
  {
    TotalServices(o) + TotalParts(o)
  }

  /** Minutes logged on an order, as the report sums them. */
  function SumMinutes(logs: seq<LogEntry>): nat
    decreases |logs|
  {
    if logs == [] then 0 else logs[0].minutes + SumMinutes(logs[1..])
  }

  lemma {:induction false} SumServicesAppend(a: seq<ServiceLine>, b: seq<ServiceLine>)
    ensures SumServices(a + b) == SumServices(a) + SumServices(b)
    decreases |a|
  {
    if a == [] {
      assert a + b == b;
    } else {
      assert (a + b)[1..] == a[1..] + b;
      SumServicesAppend(a[1..], b);
    }
  }

  lemma {:induction false} SumPartsAppend(a: seq<PartLine>, b: seq<PartLine>)
    ensures SumParts(a + b) == SumParts(a) + SumParts(b)
    decreases |a|
  {
    if a == [] {
      assert a + b == b;
    } else {
      assert (a + b)[1..] == a[1..] + b;
      SumPartsAppend(a[1..], b);
    }
  }

  lemma {:induction false} SumMinutesAppend(a: seq<LogEntry>, b: seq<LogEntry>)
    ensures SumMinutes(a + b) == SumMinutes(a) + SumMinutes(b)
    decreases |a|
  {
    if a == [] {
      assert a + b == b;
    } else {
      assert (a + b)[1..] == a[1..] + b;
      SumMinutesAppend(a[1..], b);
    }
  }

  /** Every service line's price is part of the services total. */
  lemma {:induction false} ServiceLineBounded(lines: seq<ServiceLine>, i: nat)
    requires i < |lines|
    ensures lines[i].price <= SumServices(lines)
    decreases i
  {
    if i > 0 {
      ServiceLineBounded(lines[1..], i - 1);
    }
  }

  /** Adding a service line raises the grand total by exactly its price. */
  lemma AddServiceLine(o: Order, l: ServiceLine)
    ensures TotalGeneral(o.(services := o.services + [l])) == TotalGeneral(o) + l.price
    ensures TotalParts(o.(services := o.services + [l])) == TotalParts(o)
  {
    SumServicesAppend(o.services, [l]);
    assert SumServices([l]) == l.price by { assert [l][1..] == []; }
  }

  /** Adding a part line raises the grand total by exactly quantity x unit price. */
  lemma AddPartLine(o: Order, l: PartLine)
    ensures TotalGeneral(o.(parts := o.parts + [l])) == TotalGeneral(o) + l.quantity * l.unitPrice
    ensures TotalServices(o.(parts := o.parts + [l])) == TotalServices(o)
  {
    SumPartsAppend(o.parts, [l]);
    assert SumParts([l]) == l.quantity * l.unitPrice by { assert [l][1..] == []; }
  }

  // ---------------------------------------------------------------- defaults

  /** A new Repuesto row: stock 0 and state DISPONIBLE unless given. */
  function NewPart(id: nat, code: string, name: string, priceBuy: nat, priceSell: nat): (p: Part)
    ensures p.stock == 0 && p.status == Disponible
    ensures p.id == id && p.name == name && p.priceBuy == priceBuy && p.priceSell == priceSell
  {
    Part(id, code, name, 0, priceBuy, priceSell, Disponible)
  }

  /** A new Herramienta row: one unit, OPERATIVA, with nobody responsible. */
  function NewTool(id: nat, code: string, name: string): (t: Tool)
    ensures t.status == Operativa && t.custodian == None && t.quantity == 1
    ensures t.id == id
  {
    Tool(id, code, name, 1, Operativa, None)
  }

  /** A new ZonaTrabajo row: capacity 5, active. */
  function NewZone(id: nat, name: string): (z: Zone)
    ensures z.capacity == 5 && z.active
  {
    Zone(id, name, 5, true)
  }

  /**
   * A new OrdenTrabajo row: priority MEDIA, not waitlisted, no mechanic, zone, dates,
   * lines, log entries or quality control yet.
   */
  function NewOrder(id: nat, clientId: nat, vehicleId: nat, intake: Date, state: string): (o: Order)
    ensures o.priority == Media && !o.waitlisted
    ensures o.mechanic == None && o.zone == None && o.estimated == None && o.qc == None
    ensures TotalGeneral(o) == 0
    ensures o.id == id && o.intake == intake && o.state == state
  {
    Order(id, clientId, vehicleId, None, None, intake, None, None, state, Media, false, [], [], [], None)
  }

  // ---------------------------------------------------------------- lookups

  /** `PerfilUsuario.objects.filter(rol=role).first()`. */
  function FirstWithRole(profiles: seq<Profile>, role: Role): (r: Option<Profile>)
    ensures r.Some? ==> r.value in profiles && r.value.role == role
    ensures r.None? <==> forall i :: 0 <= i < |profiles| ==> profiles[i].role != role
    ensures r.Some? ==> exists i :: 0 <= i < |profiles| && profiles[i] == r.value &&
                          forall j :: 0 <= j < i ==> profiles[j].role != role
    decreases |profiles|
  {
    if profiles == [] then None
    else if profiles[0].role == role then Some(profiles[0])
    else
      var r := FirstWithRole(profiles[1..], role);
      assert r.Some? ==> exists i :: 0 <= i < |profiles| && profiles[i] == r.value &&
                          forall j :: 0 <= j < i ==> profiles[j].role != role by {
        if r.Some? {
          var i :| 0 <= i < |profiles[1..]| && profiles[1..][i] == r.value &&
                   forall j :: 0 <= j < i ==> profiles[1..][j].role != role;
          assert profiles[i + 1] == r.value;
          assert forall j :: 0 <= j < i + 1 ==> profiles[j].role != role by {
            forall j | 0 <= j < i + 1 ensures profiles[j].role != role {
              if j > 0 { assert profiles[j] == profiles[1..][j - 1]; }
            }
          }
        }
      }
      r
  }

  /** Profile id of an optional profile, as stored in a notification's sender column. */
  function ProfileId(p: Option<Profile>): Option<nat> {
    match p
    case Some(q) => Some(q.id)
    case None => None
  }
}
