/**
 * Tool custody (`retirar_herramienta`, `devolver_herramienta` in core/views.py): a mechanic
 * takes an operative tool into custody, opening a usage record on their active order, and
 * hands it back, closing every open usage record of the tool.
 */
module ToolViews {
  import opened Wrappers
  import opened Models
  import opened Helpers

  /** The tools table and the usage records. */
  datatype ToolDesk = ToolDesk(tools: seq<Tool>, usages: seq<ToolUsage>)

  datatype ToolError = ToolNotFound | ToolUnavailable | MechanicNotFound | NotCustodian

  predicate UniqueToolIds(tools: seq<Tool>) {
    forall i, j :: 0 <= i < j < |tools| ==> tools[i].id != tools[j].id
  }

  /** `get_object_or_404(Herramienta, id=id)`: the position of the tool with that key. */
  function FindTool(tools: seq<Tool>, id: nat): (r: Option<nat>)
    ensures r.Some? ==> r.value < |tools| && tools[r.value].id == id
    ensures r.None? <==> forall i :: 0 <= i < |tools| ==> tools[i].id != id
    decreases |tools|
  {
    if tools == [] then None
    else if tools[0].id == id then Some(0)
    else
      match FindTool(tools[1..], id)
      case None => None
      case Some(i) => Some(i + 1)
  }

  /** The first order assigned to the mechanic (by key) that is EN_PROGRESO. */
  function ActiveOrder(orders: seq<Order>, m: Mechanic): (r: Option<Order>)
    ensures r.Some? ==> r.value in orders && r.value.state == StateEnProgreso &&
                        r.value.mechanic.Some? && r.value.mechanic.value.id == m.id
    ensures r.None? <==> forall i :: 0 <= i < |orders| ==>
                           !(orders[i].state == StateEnProgreso && orders[i].mechanic.Some? && orders[i].mechanic.value.id == m.id)
    decreases |orders|
  {
    if orders == [] then None
    else
      var o := orders[0];
      if o.state == StateEnProgreso && o.mechanic.Some? && o.mechanic.value.id == m.id then Some(o)
      else
        var r := ActiveOrder(orders[1..], m);
        assert r.None? ==> forall i :: 0 <= i < |orders| ==>
          !(orders[i].state == StateEnProgreso && orders[i].mechanic.Some? && orders[i].mechanic.value.id == m.id) by {
          if r.None? {
            forall i | 0 < i < |orders|
              ensures !(orders[i].state == StateEnProgreso && orders[i].mechanic.Some? && orders[i].mechanic.value.id == m.id)
            {
              assert orders[i] == orders[1..][i - 1];
            }
          }
        }
        r
  }

  /** A usage record of the tool that has not been returned. */
  predicate IsOpenUsage(u: ToolUsage, toolId: nat) {
    u.toolId == toolId && u.returnedAt.None?
  }

  /** How many open usage records a tool has. */
  function OpenUsages(usages: seq<ToolUsage>, toolId: nat): (c: nat)
    ensures c <= |usages|
    decreases |usages|
  {
    if usages == [] then 0
    else (if IsOpenUsage(usages[0], toolId) then 1 else 0) + OpenUsages(usages[1..], toolId)
  }

  lemma {:induction false} OpenUsagesAppend(a: seq<ToolUsage>, b: seq<ToolUsage>, toolId: nat)
    ensures OpenUsages(a + b, toolId) == OpenUsages(a, toolId) + OpenUsages(b, toolId)
    decreases |a|
  {
    if a == [] {
      assert a + b == b;
    } else {
      assert (a + b)[0] == a[0] && (a + b)[1..] == a[1..] + b;
      OpenUsagesAppend(a[1..], b, toolId);
    }
  }

  /**
   * `retirar_herramienta`: refused unless the tool exists and is OPERATIVA and the user's
   * mechanic record is found. Then a usage record is opened on the mechanic's first
   * EN_PROGRESO order, if there is one, and the tool goes EN_MANTENCION in the mechanic's
   * custody. Open usage records of the tool are not looked at.
   */
  function CheckoutTool(desk: ToolDesk, id: nat, user: User, mechanics: seq<Mechanic>, orders: seq<Order>,
                        now: Instant): (r: Result<ToolDesk, ToolError>)
    ensures FindTool(desk.tools, id).None? ==> r == Failure(ToolNotFound)
    ensures FindTool(desk.tools, id).Some? && desk.tools[FindTool(desk.tools, id).value].status != Operativa ==>
              r == Failure(ToolUnavailable)
    ensures r.Success? <==> FindTool(desk.tools, id).Some? &&
                            desk.tools[FindTool(desk.tools, id).value].status == Operativa &&
                            FindMechanic(Some(user), mechanics).Some?
    ensures r.Success? ==>
              var i := FindTool(desk.tools, id).value;
              var m := FindMechanic(Some(user), mechanics).value;
              |r.value.tools| == |desk.tools| &&
              r.value.tools[i] == desk.tools[i].(status := EnMantencion, custodian := Some(m.id)) &&
              (forall j :: 0 <= j < |desk.tools| && j != i ==> r.value.tools[j] == desk.tools[j]) &&
              (ActiveOrder(orders, m).None? ==> r.value.usages == desk.usages) &&
              (ActiveOrder(orders, m).Some? ==>
                 r.value.usages == desk.usages + [ToolUsage(ActiveOrder(orders, m).value.id, id, now, None)])
  {
    match FindTool(desk.tools, id)
    case None => Failure(ToolNotFound)
    case Some(i) =>
      var t := desk.tools[i];
      if t.status != Operativa then Failure(ToolUnavailable)
      else
        match FindMechanic(Some(user), mechanics)
        case None => Failure(MechanicNotFound)
        case Some(m) =>
          var usages := match ActiveOrder(orders, m)
            case None => desk.usages
            case Some(o) => desk.usages + [ToolUsage(o.id, t.id, now, None)];
          Success(ToolDesk(desk.tools[i := t.(status := EnMantencion, custodian := Some(m.id))], usages))
  }

  /** Close one usage record if it is an open one of the tool. */
  function CloseUsage(u: ToolUsage, toolId: nat, now: Instant): ToolUsage {
    if IsOpenUsage(u, toolId) then u.(returnedAt := Some(now)) else u
  }

  /** `.filter(herramienta=…, fecha_devolucion__isnull=True).update(fecha_devolucion=now)`. */
  function CloseUsages(usages: seq<ToolUsage>, toolId: nat, now: Instant): (r: seq<ToolUsage>)
    ensures |r| == |usages|
    ensures forall k :: 0 <= k < |usages| ==> r[k] == CloseUsage(usages[k], toolId, now)
    ensures OpenUsages(r, toolId) == 0
    ensures forall t :: t != toolId ==> OpenUsages(r, t) == OpenUsages(usages, t)
    decreases |usages|
  {
    if usages == [] then []
    else
      var rest := CloseUsages(usages[1..], toolId, now);
      var r := [CloseUsage(usages[0], toolId, now)] + rest;
      assert r[1..] == rest;
      r
  }

  /**
   * `devolver_herramienta`: refused when the tool does not exist, the user's mechanic
   * record is not found, or another mechanic holds it. Otherwise every open usage record of
   * the tool is closed now, and the tool is OPERATIVA with no custodian, whatever its state was.
   */
  function ReturnTool(desk: ToolDesk, id: nat, user: User, mechanics: seq<Mechanic>, now: Instant): (r: Result<ToolDesk, ToolError>)
    ensures FindTool(desk.tools, id).None? ==> r == Failure(ToolNotFound)
    ensures r.Success? <==> FindTool(desk.tools, id).Some? && FindMechanic(Some(user), mechanics).Some? &&
                            var c := desk.tools[FindTool(desk.tools, id).value].custodian;
                            (c.None? || c.value == FindMechanic(Some(user), mechanics).value.id)
    ensures r.Success? ==>
              var i := FindTool(desk.tools, id).value;
              |r.value.tools| == |desk.tools| &&
              r.value.tools[i] == desk.tools[i].(status := Operativa, custodian := None) &&
              (forall j :: 0 <= j < |desk.tools| && j != i ==> r.value.tools[j] == desk.tools[j]) &&
              |r.value.usages| == |desk.usages| &&
              (forall k :: 0 <= k < |desk.usages| ==> r.value.usages[k] == CloseUsage(desk.usages[k], id, now))
  {
    match FindTool(desk.tools, id)
    case None => Failure(ToolNotFound)
    case Some(i) =>
      var t := desk.tools[i];
      match FindMechanic(Some(user), mechanics)
      case None => Failure(MechanicNotFound)
      case Some(m) =>
        if t.custodian.Some? && t.custodian.value != m.id then Failure(NotCustodian)
        else Success(ToolDesk(desk.tools[i := t.(status := Operativa, custodian := None)], CloseUsages(desk.usages, t.id, now)))
  }

  /**
   * The custody invariant: keys are unique, an operative tool has no open usage record
   * and any other tool at most one.
   */
  ghost predicate CustodyConsistent(desk: ToolDesk) {
    UniqueToolIds(desk.tools) &&
    forall i :: 0 <= i < |desk.tools| ==>
      OpenUsages(desk.usages, desk.tools[i].id) <= (if desk.tools[i].status == Operativa then 0 else 1)
  }

  lemma CheckoutKeepsCustody(desk: ToolDesk, id: nat, user: User, mechanics: seq<Mechanic>, orders: seq<Order>, now: Instant)
    requires CustodyConsistent(desk)
    ensures var r := CheckoutTool(desk, id, user, mechanics, orders, now);
            r.Success? ==> CustodyConsistent(r.value)
  {
    var r := CheckoutTool(desk, id, user, mechanics, orders, now);
    if r.Success? {
      var i := FindTool(desk.tools, id).value;
      var d := r.value;
      var extra := d.usages[|desk.usages|..];
      assert d.usages == desk.usages + extra;
      forall j | 0 <= j < |d.tools|
        ensures OpenUsages(d.usages, d.tools[j].id) <= (if d.tools[j].status == Operativa then 0 else 1)
      {
        OpenUsagesAppend(desk.usages, extra, d.tools[j].id);
        if extra != [] {
          assert extra[1..] == [];
        }
        if j != i {
          assert d.tools[j].id != id;
        }
      }
    }
  }

  lemma ReturnKeepsCustody(desk: ToolDesk, id: nat, user: User, mechanics: seq<Mechanic>, now: Instant)
    requires CustodyConsistent(desk)
    ensures var r := ReturnTool(desk, id, user, mechanics, now);
            r.Success? ==> CustodyConsistent(r.value) && OpenUsages(r.value.usages, id) == 0
  {
    var r := ReturnTool(desk, id, user, mechanics, now);
    if r.Success? {
      var i := FindTool(desk.tools, id).value;
      var closed := CloseUsages(desk.usages, id, now);
      assert r.value.usages == closed;
      forall j | 0 <= j < |r.value.tools|
        ensures OpenUsages(r.value.usages, r.value.tools[j].id) <= (if r.value.tools[j].status == Operativa then 0 else 1)
      {
        if j != i {
          assert r.value.tools[j].id != id;
        }
      }
    }
  }

  /**
   * The same mechanic's return undoes the checkout on the tools table, except that any
   * custodian the tool carried before is cleared; no usage record of the tool stays open.
   */
  lemma CheckoutThenReturn(desk: ToolDesk, id: nat, user: User, mechanics: seq<Mechanic>, orders: seq<Order>,
                           t1: Instant, t2: Instant)
    requires CheckoutTool(desk, id, user, mechanics, orders, t1).Success?
    ensures var mid := CheckoutTool(desk, id, user, mechanics, orders, t1).value;
            var back := ReturnTool(mid, id, user, mechanics, t2);
            var i := FindTool(desk.tools, id).value;
            back.Success? && back.value.tools == desk.tools[i := desk.tools[i].(custodian := None)] &&
            OpenUsages(back.value.usages, id) == 0
  {
    var mid := CheckoutTool(desk, id, user, mechanics, orders, t1).value;
    var i := FindTool(desk.tools, id).value;
    FindToolKeysOnly(desk.tools, mid.tools, id);
    var back := ReturnTool(mid, id, user, mechanics, t2).value;
    assert back.tools == desk.tools[i := desk.tools[i].(custodian := None)];
  }

  /** A tool taken by one mechanic cannot be handed back by another; nothing changes. */
  lemma OtherMechanicCannotReturn(desk: ToolDesk, id: nat, user: User, mechanics: seq<Mechanic>, now: Instant)
    requires FindTool(desk.tools, id).Some? && FindMechanic(Some(user), mechanics).Some?
    requires var c := desk.tools[FindTool(desk.tools, id).value].custodian;
             c.Some? && c.value != FindMechanic(Some(user), mechanics).value.id
    ensures ReturnTool(desk, id, user, mechanics, now) == Failure(NotCustodian)
  {
  }

  /** `FindTool` looks only at the keys. */
  lemma {:induction false} FindToolKeysOnly(a: seq<Tool>, b: seq<Tool>, id: nat)
    requires |a| == |b| && forall j :: 0 <= j < |a| ==> a[j].id == b[j].id
    ensures FindTool(a, id) == FindTool(b, id)
    decreases |a|
  {
    if a != [] {
      FindToolKeysOnly(a[1..], b[1..], id);
    }
  }

  /** With unique keys, looking up a tool's key finds that tool's position. */
  lemma {:induction false} FindToolUnique(tools: seq<Tool>, i: nat)
    requires UniqueToolIds(tools) && i < |tools|
    ensures FindTool(tools, tools[i].id) == Some(i)
    decreases i
  {
    if i > 0 {
      assert tools[0].id != tools[i].id;
      assert tools[1..][i - 1] == tools[i];
      FindToolUnique(tools[1..], i - 1);
    }
  }

  /**
   * A tool as created (one unit, OPERATIVA, nobody responsible) can be taken exactly by a
   * user whose mechanic record is found; it then sits in that mechanic's custody, EN_MANTENCION,
   * and the custody invariant still holds.
   */
  lemma NewToolCheckedOut(desk: ToolDesk, i: nat, id: nat, code: string, name: string, user: User,
                          mechanics: seq<Mechanic>, orders: seq<Order>, now: Instant)
    requires CustodyConsistent(desk) && i < |desk.tools| && desk.tools[i] == NewTool(id, code, name)
    ensures var r := CheckoutTool(desk, id, user, mechanics, orders, now);
            (r.Success? <==> FindMechanic(Some(user), mechanics).Some?) &&
            (r.Success? ==> r.value.tools[i].custodian == Some(FindMechanic(Some(user), mechanics).value.id) &&
                            r.value.tools[i].status == EnMantencion && CustodyConsistent(r.value))
  {
    FindToolUnique(desk.tools, i);
    CheckoutKeepsCustody(desk, id, user, mechanics, orders, now);
  }
}
