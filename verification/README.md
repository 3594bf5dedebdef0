# Workshop management core, in Dafny

A model of the core of `taller_mecanico`, a Django application that runs a car-repair
workshop. The model covers these parts:

- **Validators** (`core/validators.py`): the Chilean RUT mod-11 check, the two licence-plate
  shapes, the date windows and the non-negative amounts.
- **Inventory ledger** (`core/services/inventory_manager.py` and the `inventario` and
  `movimiento_repuesto` views): stock checks, entries and exits, the low-stock list, and the
  low-stock alert deduplicated over 24 hours.
- **Work-order lifecycle** (`core/services/assignment_service.py` and the `detalle_ot`,
  `control_calidad`, `mis_trabajos` and `registrar_bitacora` views). This covers
  assignment, the one-shot quality control, delay alerts, log entries and the money totals
  of `core/models.py`.
- **Tool custody** (the `retirar_herramienta` and `devolver_herramienta` views).
- **Notification fan-out** (`core/patterns/observer.py`, `core/signals.py` and
  `core/services/notification_service.py`). This covers the observer registry with attach,
  detach and notify, the routing table the three observers implement, the save hooks, and
  marking a notification read.
- **Access decisions** (`core/decorators.py`) and the user-to-mechanic lookup in
  `core/helpers.py`.
- **Demo-data generators** (`core/management/commands/seed.py`): RUTs, plates, part states,
  and the cap of four log entries per order.

## How the model is built

Each database table is a sequence in primary-key order. A query's `.first()` is therefore
the first match in the sequence.

Every operation is a pure function, from the tables it reads to the tables it writes. The
clock is a parameter: `Date` counts days and `Instant` counts seconds. The random draws of
the seed command are parameters too.

`OrdenTrabajo.save()` runs two signal hooks: `guardar_estado_anterior` before the write and
`notificar_cambio_estado_ot` after it. The model threads their process-wide state cache
through the save and returns the events it emits. `Signals.Deliver` turns events into
notifications through the default observer registry.

Modules follow the source:

| Module | Source |
|---|---|
| `Wrappers` | `Option` and `Result` |
| `Text` | the string helpers Python gives for free: `strip`, `split(maxsplit=1)`, `upper`, `str(n)` |
| `Models` | the entities, their defaults and the totals |
| `Validators` | `validators.py` |
| `Inventory` | `inventory_manager.py`, plus the two inventory views |
| `Observer` | `observer.py` |
| `Signals` | `signals.py` |
| `Notifications` | `notification_service.py` |
| `Assignment` | `assignment_service.py` |
| `Helpers` | `helpers.py` |
| `Decorators` | `decorators.py` |
| `OrderViews` | the work-order views |
| `ToolViews` | the tool views |
| `NotificationViews` | marking read, and the unread counter |
| `Seed` | the seed command |

### Behaviour worth knowing

- The stock service takes any integer quantity. A negative exit passes the "not enough
  stock" test and raises the stock (`Inventory.NegativeSalidaRaisesStock`). A negative entry
  that would leave the stock below 0 fails when saved, because the stock column is
  unsigned (`Inventory.EntradaRefusedIff`). The stock form only offers quantities of at
  least 1.
- The low-stock alert is suppressed by any general, order-less notification that mentions
  the part and is at most 24 hours old. Whether that notification was read does not
  matter, because the query does not look at the read flag.
- The delay alert of `mis_trabajos` and `notificar_atraso` is sent once per order, ever.
  Any earlier ATRASO_TRABAJO notification for the order suppresses it.
- Returning a tool closes every open usage record of that tool. The tool becomes OPERATIVA
  with no custodian, whatever state it was in. A tool with no custodian can be returned by
  any mechanic. Checking a tool out does not look at its open usage records.
- `registrar_bitacora` records a log entry on any order, whether or not the order is
  assigned to the mechanic. Assignment does not check the order's state. Tool checkout is
  never refused because of an order's state; the usage record opens only when the mechanic
  has an EN_PROGRESO order (`ToolViews.ActiveOrder`).
- The `detalle_ot` page writes the mechanic's "assigned" notification itself. It emits no
  ASIGNACION event. Its notification is the same one the mechanic observer would write
  (`OrderViews.DetailNoticeIsObserverNotice`).
- `control_calidad` tells the order's mechanic twice about the result. The save hook's
  CONTROL_CALIDAD event produces one notice and the view writes another, with the same text
  to the same profile (`OrderViews.QcMechanicToldTwice`).
- An order's state is the name of its EstadoOT row. The save hook ignores an empty name, as
  Python's truthiness does. The hook treats a primary key of 0 as unset.

## Model

| member | source | states |
|---|---|---|
| Validators.ValidateRut | core/validators.py:8-56 | empty input passes; after removing dots and dashes and upper-casing, a length other than 8 or 9 fails; otherwise the RUT passes exactly when the body is all digits and the last character is the mod-11 check character of the body; every failure carries "RUT inválido" |
| Validators.CheckDigit | core/validators.py:38-53 | the check character is '0' when 11 minus the weighted sum mod 11 is 11, 'K' when it is 10, and that digit otherwise |
| Validators.ComputeCheckDigit | core/validators.py:38-53 | the loop over the reversed body with weights 2,3,4,5,6,7,2,3 computes the same check character, and the result is one of "0123456789K" |
| Validators.CheckCharSpelled | core/validators.py:33-35 | the allowed check characters are exactly the characters of "0123456789K" |
| Validators.CleanKnown | core/validators.py:16 | cleaning a body that has no dots, dashes or lower-case letters, followed by one character, leaves the body and upper-cases the character |
| Validators.CleanDashed | core/validators.py:16 | "body-c" cleans to "bodyc" |
| Validators.DashedRut | core/validators.py:16-56 | a 7- or 8-digit body, a dash and a check character is accepted exactly when the character is the computed one |
| Validators.RutCheckCharUnique | core/validators.py:38-56 | for a given body, at most one check character is accepted, up to case |
| Validators.ExampleCheckDigit | core/validators.py:38-53 | the check digit of 12345678 is 5 |
| Validators.RutExampleAccepted | core/validators.py:8-56 | "12345678-5" passes |
| Validators.RutExampleRejected | core/validators.py:8-56 | "12345678-0" fails |
| Validators.ValidatePlate | core/validators.py:59-77 | empty input passes; otherwise, with spaces removed and letters upper-cased, the plate passes exactly when it is four letters and two digits or two letters and four digits; a failure carries the format message |
| Validators.AcceptedPlateShape | core/validators.py:69-74 | an accepted non-empty plate normalises to six characters: letters in the first two positions, digits in the last two |
| Validators.PlateNormalizationStable | core/validators.py:66-74 | normalising is idempotent, and a normalised plate gets the same verdict as the original |
| Validators.BlankPlateRejected | core/validators.py:63-74 | a value of only spaces is rejected, although the empty value passes |
| Validators.NormalizedAlready | core/validators.py:66-74 | a plate with no spaces and no lower-case letters is its own normal form |
| Validators.ShapedPlateAccepted | core/validators.py:69-74 | any plate in either shape is accepted |
| Validators.ThreeThreePlateRejected | core/validators.py:69-77 | three letters and three digits is rejected |
| Validators.ValidateNotFuture | core/validators.py:80-84 | passes exactly when the date is not after today |
| Validators.ValidateNotTooOld | core/validators.py:87-91 | passes exactly when the date is at most 36500 days before today |
| Validators.ValidateEstimatedAfterIntake | core/validators.py:94-98 | fails exactly when both dates are present and the estimate is before intake; equal dates pass; the failure carries the message |
| Validators.ValidateStockNonNegative | core/validators.py:101-104 | passes exactly when the stock is not negative; a negative stock gets the stock message |
| Validators.ValidateMileage | core/validators.py:107-110 | passes exactly when the mileage is not negative, so 0 passes; a negative mileage gets the mileage message |
| Validators.DateGuardsWindow | core/validators.py:80-91 | the two date guards together accept exactly the 36501-day window that ends today |
| Models.PartLineTotal | core/models.py:285-286 | a part line totals 0 exactly when its quantity or unit price is 0, and at least the unit price once the quantity is 1 or more |
| Models.TotalServices | core/models.py:251-252 | the services total is at least each applied price, and 0 exactly when every service is free |
| Models.TotalParts | core/models.py:254-255 | the parts total is at least each line's total, and 0 exactly when every part line totals 0 |
| Models.TotalGeneral | core/models.py:257-258 | the grand total covers both subtotals, and is 0 exactly when every service is free and every part line totals 0 |
| Models.SumServicesAppend | core/models.py:251-252 | the services total of two lists of lines is the sum of their totals |
| Models.SumPartsAppend | core/models.py:254-255 | the parts total of two lists of lines is the sum of their totals |
| Models.SumMinutesAppend | core/views.py:325 | the minutes of two lists of log entries add up |
| Models.ServiceLineBounded | core/models.py:251-252 | every service line's price is at most the services total |
| Models.AddServiceLine | core/models.py:251-258 | adding a service line raises the grand total by its price and leaves the parts total alone |
| Models.AddPartLine | core/models.py:254-258 | adding a part line raises the grand total by quantity times unit price and leaves the services total alone |
| Inventory.NewPartNeedsRestock | core/models.py:149-155 | a part as created (stock 0, DISPONIBLE) is listed as low, the inventory page leaves it with a recent alert when a shop manager exists, and no positive quantity of it is in stock or can leave |
| ToolViews.NewToolCheckedOut | core/models.py:173-183 | a tool as created (one unit, OPERATIVA, no responsible mechanic) can be taken exactly by a user whose mechanic record is found; it then sits EN_MANTENCION in that mechanic's custody and the custody invariant holds |
| Assignment.NewZoneOffered | core/models.py:108-109 | a zone as created (capacity 5, active) is among the zones the assignment service offers |
| OrderViews.NewOrderNotDelayed | core/models.py:226-242 | an order as created (no mechanic, no estimate) is on nobody's job list, is never overdue and gets no delay alert |
| Models.FirstWithRole | core/services/inventory_manager.py:93-95 | the first profile of the role in table order, or none exactly when no profile has the role |
| Inventory.FindPart | core/services/inventory_manager.py:37 | the lookup finds a row with the key, or none exactly when no row has it |
| Inventory.FindPartUnique | core/services/inventory_manager.py:37 | with unique keys, the lookup finds the one row that carries the key |
| Inventory.CheckStock | core/services/inventory_manager.py:36-40 | an unknown part is an error naming its id; otherwise the answer is whether that part's stock covers the quantity |
| Inventory.AvailableStock | core/services/inventory_manager.py:52-56 | the stock of the part, or 0 for an unknown part |
| Inventory.CheckStockAgreesWithAvailable | core/services/inventory_manager.py:36-56 | for a known part, the stock check is "available stock is at least the quantity" |
| Inventory.LowStock | core/services/inventory_manager.py:58-68 | the listed parts are exactly those below the threshold, each as often as it occurs in the table |
| Inventory.MoveStock | core/services/inventory_manager.py:125-145 | an unknown part is refused; a kind other than "entrada" or "salida" is refused; an entry adds the quantity, and one that would leave the stock negative is refused; an exit beyond the stock is refused and otherwise subtracts, so a negative exit raises the stock; no other row changes |
| Inventory.SalidaRefusedIff | core/services/inventory_manager.py:133-135 | an exit is refused exactly when it asks for more than the available stock |
| Inventory.EntradaRefusedIff | core/services/inventory_manager.py:128-131 | an entry is refused exactly when its quantity would take the stock below 0, which the unsigned stock column (core/models.py:149) forbids |
| Inventory.NegativeSalidaRaisesStock | core/services/inventory_manager.py:133-139 | an exit with a negative quantity always succeeds and raises the stock by its magnitude |
| Inventory.EntradaThenSalida | core/services/inventory_manager.py:128-139 | an entry of k units followed by an exit of k units restores the table |
| Inventory.MoveAt | core/services/inventory_manager.py:125-139 | a movement changes only the stock of the row the lookup finds |
| Inventory.MoveView | core/views.py:575-594 | the form's entry adds; its exit is refused exactly when it exceeds the stock and otherwise subtracts; only the stock changes |
| Inventory.MoveViewAgreesWithService | core/views.py:581-592 | the view and the service leave every part with the same stock and refuse the same exits |
| Inventory.AlertMessage | core/services/inventory_manager.py:87-103 | a new alert's text contains the text the deduplication searches for |
| Inventory.LowStockAlert | core/services/inventory_manager.py:81-106 | an alert is written exactly when no recent alert mentions the part and a shop manager exists; it is general, order-less, unread, addressed to the first manager, and counts as recent |
| Inventory.RecentAlertPersists | core/services/inventory_manager.py:84-89 | a recent alert stays recent when rows are added or an earlier instant is asked about |
| Inventory.AlertOncePerWindow | core/services/inventory_manager.py:81-106 | raising the alert twice within 24 hours writes exactly one notification |
| Inventory.Sweep | core/views.py:515-541 | the inventory page only appends; every appended row is the general, order-less, unread alert of a listed part below 3 units, with that part's text, from the viewer to the first shop manager; with a manager present, every part below 3 units ends with a recent alert; without one, nothing is written |
| Inventory.SweepSettled | core/views.py:522-541 | when every low part already has a recent alert, the page writes nothing |
| Inventory.SweepIdempotent | core/views.py:515-541 | opening the page twice at the same instant writes nothing the second time |
| Observer.Attach | core/patterns/observer.py:174-182 | the observer is registered afterwards, nothing else is added, and the existing order is kept |
| Observer.AttachIdempotent | core/patterns/observer.py:181-182 | attaching twice is attaching once, and attaching a registered observer changes nothing |
| Observer.AttachKeepsNoDuplicates | core/patterns/observer.py:181-182 | a registry without duplicates stays without duplicates |
| Observer.Detach | core/patterns/observer.py:184-192 | an unregistered observer changes nothing; otherwise the first occurrence is removed and the others stay, in order |
| Observer.DetachRemoves | core/patterns/observer.py:191-192 | in a registry without duplicates, the observer is gone afterwards |
| Observer.AttachThenDetach | core/patterns/observer.py:174-192 | attaching a new observer and detaching it restores the registry |
| Observer.FindMechanicProfile | core/patterns/observer.py:79-83 | the first MECANICO profile with the given first and last names, or none exactly when none has them |
| Observer.MechanicProfile | core/patterns/observer.py:75-84 | a resolved profile is a MECANICO profile named after the first word and the rest of the mechanic's name |
| Observer.OneWordNameUnresolved | core/patterns/observer.py:77-84 | a one-word or blank name never resolves |
| Observer.TwoWordNameResolved | core/patterns/observer.py:77-83 | a two-part name resolves when a matching mechanic profile exists |
| Observer.MechanicUpdate | core/patterns/observer.py:38-73 | writes only for an order with a resolvable mechanic and for ASIGNACION, CONTROL_CALIDAD or ESTADO_CAMBIADO; the notice is general, names the order and the issuer, and carries the assignment, quality-control or state-change text |
| Observer.ManagerUpdate | core/patterns/observer.py:90-126 | writes only for an order when a manager exists and for SOLICITUD_CAMBIO, ATRASO or BITACORA_REGISTRADA; a change request keeps its text or gets "Solicitud de cambio para la OT #<id>."; a delay notice carries the delay text; a log notice says "Se registró una nueva bitácora para la OT #<id>." |
| Observer.ReceptionUpdate | core/patterns/observer.py:132-160 | writes exactly for OT_FINALIZADA on an order when a receptionist exists, saying "La OT #<id> ha sido finalizada." |
| Observer.UpdateFollowsRoute | core/patterns/observer.py:38-160 | any notification an observer writes follows the routing table: the event's route names the observer's role and the notification's type, and the recipient is as routed |
| Observer.RoutedObserverWrites | core/patterns/observer.py:38-160 | the observer of the routed role writes once its recipient resolves |
| Observer.UnroutedObserverSilent | core/patterns/observer.py:38-160 | an observer of another role writes nothing |
| Observer.NotifyAll | core/patterns/observer.py:201-206 | at most one notification per registered observer |
| Observer.Notify | core/patterns/observer.py:194-206 | at most one notification per registered observer |
| Observer.NotifyAllAppend | core/patterns/observer.py:201-206 | notifying a split registry writes the first part's notifications, then the second's |
| Observer.Healthy | core/patterns/observer.py:201-206 | the observers that do not raise, in order |
| Observer.NotifyFaultTolerant | core/patterns/observer.py:201-206 | a raising observer does not stop the others: the result equals what the healthy observers write when nobody raises |
| Observer.GetSubject | core/patterns/observer.py:234-252 | an existing registry is returned as it is; a new one holds the mechanic, manager and receptionist observers, in that order, without duplicates |
| Observer.DefaultObservers | core/patterns/observer.py:244-250 | the default registry has three observers and no duplicates |
| Observer.SubjectBuiltOnce | core/patterns/observer.py:242-252 | asking for the subject again returns the same registry |
| Observer.DefaultNotifyRouted | core/patterns/observer.py:194-252 | with the default registry, an event writes at most one notification, and exactly one, following the routing table, when its recipient resolves |
| Observer.WrittenRouted | core/patterns/observer.py:201-206 | a healthy observer writes once exactly when it holds the event's route and the recipient resolves |
| Observer.ChangeState | core/patterns/observer.py:208-227 | every notification written is the state-change notice for the order, with the new state, from the issuer, to the profile of the order's mechanic; with the default registry and no failures, exactly one is written when the order's mechanic has a profile, and none otherwise |
| Observer.ChangeStateWrites | core/patterns/observer.py:208-227 | for any registry, every notification an ESTADO_CAMBIADO event produces is the mechanic's state-change notice |
| Signals.PreSave | core/signals.py:19-32 | caches the stored row's state for a saved order, and none for an unsaved one or a missing row; other entries stay |
| Signals.StateEvent | core/signals.py:51-57 | the event is ESTADO_CAMBIADO, with no issuer and with both states |
| Signals.PostSave | core/signals.py:35-63 | emits exactly when the cached state differs from the non-empty new one, and drops the cache entry only then |
| Signals.SaveOrder | core/signals.py:19-63 | a save emits at most one event; saving a stored order emits ESTADO_CAMBIADO with both states exactly when the state changed to a non-empty one, and keeps its cache entry exactly when nothing was emitted; creating an order emits with no previous state when its state is non-empty, and leaves the `None` entry behind |
| Signals.SaveExistingEmitsOnChange | core/signals.py:19-63 | saving a stored order emits one ESTADO_CAMBIADO exactly when the state changed to a non-empty one; the cache keeps the entry exactly when nothing was emitted |
| Signals.CreateEmits | core/signals.py:25-63 | creating an order emits with no previous state, and the entry for the unset key stays behind |
| Signals.SecondSaveSilent | core/signals.py:41-63 | a second save without a change emits nothing |
| Signals.LogSaved | core/signals.py:66-94 | a created log entry announces BITACORA_REGISTRADA, issued by its mechanic's profile when that resolves; an update announces nothing |
| Signals.QcSaved | core/signals.py:97-128 | a created quality control announces CONTROL_CALIDAD with its result, then OT_FINALIZADA only when approved; the first manager issues both |
| Signals.QcFinalizesIffApproved | core/signals.py:121-128 | OT_FINALIZADA is announced exactly for an approved, newly created control |
| Notifications.ChangeRequestEvent | core/services/notification_service.py:21-41 | the event carries the kind, the order, the message and the issuer unchanged |
| Notifications.ChangeRequestDelivered | core/services/notification_service.py:35-41 | with a manager present, exactly one SOLICITUD_CAMBIO notification reaches the first manager, with the text as written |
| Notifications.CountDelayNotices | core/services/notification_service.py:55-59 | the count is 0 exactly when the order has no delay notice |
| Notifications.DelayEvents | core/services/notification_service.py:43-67 | no event exactly when the order already has a delay notice; otherwise one ATRASO event |
| Notifications.NotifyDelay | core/services/notification_service.py:43-67 | the table is only appended to, and untouched when the order already has a delay notice; with the default registry, a first call writes one delay notice from the issuer to the first shop manager, or nothing when there is none |
| Notifications.DelayEventWritesOne | core/services/notification_service.py:62-67 | with a manager present, an ATRASO event writes exactly one delay notice |
| Notifications.DelayNotifiedOnce | core/services/notification_service.py:55-67 | two calls leave exactly one delay notice, and the second call writes nothing |
| Notifications.LogEvent | core/services/notification_service.py:69-86 | one BITACORA_REGISTRADA event for the order and issuer |
| Notifications.QcEvent | core/services/notification_service.py:88-108 | one CONTROL_CALIDAD event carrying the result |
| Notifications.FinishedEvent | core/services/notification_service.py:110-127 | one OT_FINALIZADA event |
| Notifications.BuildersRouted | core/services/notification_service.py:69-127 | the log entry goes to the manager, the quality control to the mechanic and the finished order to the receptionist, once each when the recipient exists |
| Assignment.AssignFields | core/services/assignment_service.py:65-72 | mechanic, zone and estimate as given; EN_PROGRESO; off the waiting list; nothing else changes |
| Assignment.AssignOrder | core/services/assignment_service.py:34-83 | refused exactly when the estimate is before intake, with the message and no change; otherwise the assignment is written and saved, followed by one ASIGNACION event and the success message |
| Assignment.AssignGuardIsValidator | core/services/assignment_service.py:57-58 | the service's guard is the estimated-date validator, so equal dates pass |
| Assignment.AssignmentEvents | core/services/assignment_service.py:73-81 | exactly one ASIGNACION event on success and none on refusal; the save announces the state change exactly when the order was not EN_PROGRESO |
| Assignment.AssignmentReachesMechanic | core/services/assignment_service.py:75-81 | the ASIGNACION event reaches the assigned mechanic's profile, and only it, when that profile resolves |
| Assignment.ActiveZones | core/services/assignment_service.py:94-101 | the listed zones are exactly the active ones, each as often as it occurs in the table |
| Helpers.FirstNamed | core/helpers.py:33 | the first mechanic with the name, or none exactly when none has it |
| Helpers.FindMechanic | core/helpers.py:7-40 | none unless the user is logged in with a MECANICO profile; a found mechanic is named by the full name or the username; the full name is tried first |
| Helpers.FullNamePriority | core/helpers.py:30-35 | when a mechanic carries the full name, the lookup returns one with that name |
| Helpers.FoundIffNamed | core/helpers.py:30-40 | a mechanic user is found exactly when some mechanic carries the full name or the username |
| Decorators.RequireProfile | core/decorators.py:17-32 | the view runs exactly for a logged-in user with a profile; otherwise the user is sent to login |
| Decorators.RequireRole | core/decorators.py:46-64 | the view runs for an allowed role; a wrong role goes to the dashboard; no login or no profile goes to login |
| Decorators.RoleGateRefinesProfileGate | core/decorators.py:10-64 | passing the role gate implies passing the profile gate; both send the same users to login |
| OrderViews.MechanicNotice | core/views.py:278-298 | exactly one general notice to the mechanic's profile when it resolves, none otherwise |
| OrderViews.AssignFromDetail | core/views.py:246-301 | refused exactly when the estimate is before intake; otherwise there is no ASIGNACION event and at most one direct notice |
| OrderViews.DetailAgreesWithService | core/views.py:257-276 | the page and the service agree on refusal, the order and the cache; the page's events are the service's without the last ASIGNACION |
| OrderViews.DetailNoticeIsObserverNotice | core/views.py:278-298 | the page's direct notice is what the default subject would write for the ASIGNACION event it skips |
| OrderViews.RecordQc | core/views.py:352-405 | with a control present, nothing changes; otherwise the control is stored with the user as responsible, the order is FINALIZADO exactly when approved and PENDIENTE otherwise, and CONTROL_CALIDAD is announced first; the order's cache entry survives exactly when its state did not change, other entries are untouched; the view writes one notice with the result text to the mechanic's profile exactly when the order has a mechanic whose profile resolves |
| OrderViews.QcOneShot | core/views.py:356-362 | a second control changes and says nothing |
| OrderViews.QcEventOrder | core/views.py:364-380 | CONTROL_CALIDAD first, then OT_FINALIZADA exactly when approved, then the order's state change |
| OrderViews.QcMechanicToldTwice | core/views.py:382-402 | the event's notice and the view's own notice carry the same text to the same mechanic profile |
| OrderViews.MyJobs | core/views.py:433-436 | exactly the mechanic's orders that are EN_PROGRESO or PENDIENTE |
| OrderViews.DelayAlertFor | core/views.py:441-454 | a delay notice exactly for an overdue order with no earlier notice, when a manager exists, addressed to the manager |
| OrderViews.DelayAlertIsServiceAlert | core/views.py:439-454 | for an overdue order, the view writes what `notificar_atraso` would deliver |
| OrderViews.DelayAlerts | core/views.py:441-454 | the loop only appends, and writes nothing without a manager |
| OrderViews.DelayAlertKeepsUnique | core/views.py:444-454 | one step keeps at most one delay notice per order |
| OrderViews.DelayAlertsUnique | core/views.py:441-454 | the loop never writes a second delay notice for an order |
| OrderViews.DelayAlertsCover | core/views.py:441-454 | with a manager present, every overdue job has a delay notice afterwards |
| OrderViews.DelayAlertsOnlyOverdue | core/views.py:441-454 | every added notification is a delay notice for an overdue job |
| OrderViews.MisTrabajos | core/views.py:422-456 | no jobs and no alerts when the mechanic is not found; otherwise the jobs are the mechanic's open orders, every overdue job ends with a delay notice when a manager exists, nothing is written without one, and every added row is the delay notice of an overdue job; delay notices stay unique |
| OrderViews.RegisterLog | core/views.py:461-499 | refused exactly when the mechanic is not found; otherwise the entry is saved under that mechanic and announced; a non-blank change request goes, stripped, to the first manager |
| OrderViews.ChangeRequestIsServiceNotice | core/views.py:485-496 | the change request the view writes is what `notificar_solicitud_cambio` would deliver |
| ToolViews.FindTool | core/views.py:639 | the position of the tool with the key, or none exactly when no tool has it |
| ToolViews.ActiveOrder | core/views.py:654-657 | the first EN_PROGRESO order of the mechanic, or none exactly when there is none |
| ToolViews.CheckoutTool | core/views.py:637-671 | a missing tool, a tool that is not OPERATIVA or an unknown mechanic is refused, in that order; otherwise a usage opens on the active order if there is one, and the tool goes EN_MANTENCION in the mechanic's custody |
| ToolViews.CloseUsages | core/views.py:694-697 | every open usage of the tool closes now; other tools' usages are unchanged |
| ToolViews.ReturnTool | core/views.py:676-704 | a missing tool, an unknown mechanic or another custodian is refused; otherwise all open usages close and the tool is OPERATIVA with no custodian |
| ToolViews.CheckoutKeepsCustody | core/views.py:637-671 | checkout keeps the custody invariant: no open usage for an operative tool, at most one otherwise |
| ToolViews.ReturnKeepsCustody | core/views.py:676-704 | return keeps the custody invariant |
| ToolViews.CheckoutThenReturn | core/views.py:637-704 | the same mechanic's return restores the tools table, apart from clearing a prior custodian, and leaves no open usage |
| ToolViews.OtherMechanicCannotReturn | core/views.py:687-691 | another mechanic's return is refused with nothing changed |
| NotificationViews.MarkRead | core/views.py:728-739 | a missing key is not found; another profile's notification is refused; otherwise only that notification becomes read |
| NotificationViews.UnreadFor | core/context_processors.py:17-20 | the unread counter is 0 exactly when no unread notification is addressed to the profile, and never exceeds the table size |
| NotificationViews.MarkReadIdempotent | core/views.py:732-737 | marking twice is marking once |
| NotificationViews.MarkReadCounts | core/views.py:736-737 | the recipient's unread count drops by one exactly when the notification was unread; other profiles' counts are unchanged |
| Seed.SeedCheckDigit | core/management/commands/seed.py:21-38 | the generator's check character is one of "0123456789K" |
| Seed.SeedCheckDigitIsValidators | core/management/commands/seed.py:21-38 | for a 7- or 8-digit number, the generator's check character is the only one the validator accepts |
| Seed.EightDigits | core/management/commands/seed.py:43 | a drawn number has eight digits |
| Seed.GenerateRut | core/management/commands/seed.py:41-45 | eight digits, a dash and a check character |
| Seed.GeneratedRutAccepted | core/management/commands/seed.py:41-45 | every generated RUT passes the RUT validator |
| Seed.GeneratePlate | core/management/commands/seed.py:48-59 | the drawn letters, then the drawn digits, six characters |
| Seed.GeneratedPlateAccepted | core/management/commands/seed.py:48-59 | every generated plate passes the plate validator, in the shape the coin chose and not the other |
| Seed.SeedPartStatus | core/management/commands/seed.py:593-597 | AGOTADO exactly at zero stock, never DESCONTINUADO |
| Seed.LowSeedStockStaysAvailable | core/management/commands/seed.py:593-597 | a seeded part with one or two units is DISPONIBLE and still listed as low stock |
| Seed.SeedLogQuota | core/management/commands/seed.py:514-521 | none from four entries on; otherwise at most the draw, never more than four in all, and either the draw or up to four |
| Seed.AddPicks | core/management/commands/seed.py:523-548 | the existing entries are kept as a prefix; at most one entry per pick, all under the mechanic |
| Seed.SeedOrderLogs | core/management/commands/seed.py:507-548 | an order without a mechanic or with four entries is left alone; an order under four never goes past four |
| Seed.AddPicksKeepsDistinct | core/management/commands/seed.py:529-543 | no mechanic logs the same description twice on an order |
| Seed.AddPicksCovers | core/management/commands/seed.py:529-548 | after the loop, every pick's description is on the order |
| Seed.AddDuplicatesOnly | core/management/commands/seed.py:529-548 | picks that are all present add nothing |
| Seed.SeedLogsIdempotent | core/management/commands/seed.py:509-548 | running again with the same draws leaves the log as it is |
| Seed.AddPicksMinutes | core/management/commands/seed.py:526-541 | each added entry adds 20 to 120 minutes to the order's total |

## Left out

- Validators.DateGuardsWindow: both date guards take one `today`. The source reads `timezone.now().date()`
  in one and `date.today()` in the other, and these can differ near midnight when the project's
  time zone is not the server's.
- The ORM, requests, sessions, templates, `messages` and redirects. Tables are sequences and
  views return their outcome as data.
- PDF rendering (`generar_informe_pdf`), photo uploads (`FotoBitacora`), and the login,
  logout and registration views. They are I/O around the modelled core. The report's
  minute sum is `Models.SumMinutes`.
- Form validation (`core/forms.py`). Views are modelled on a valid form, with quantities
  of at least 1 where the form demands it.
- The `order_by` of `mis_trabajos` (by intake date), of `inventario` (by name) and of
  `obtener_mecanicos_disponibles`. The model keeps table order. `obtener_mecanicos_disponibles`
  only sorts the mechanics, so it is not modelled.
- The `print` of a raising observer. A raising observer is modelled as one that writes
  nothing.
- Concurrency between requests. The source has no locking, and each operation is modelled
  as one atomic step.
- The seed command's floating-point purchase price (`int(precio_venta * 0.6)`), its fixed
  data tables and counters, and the notifications its saves trigger through the signals.
- Unicode case mapping, Unicode digits and non-ASCII whitespace (such as U+0085 and U+00A0,
  which Python also splits on). The model treats these ASCII-only.
- Inventory.LowStockAlert: the alert's deduplication uses `mensaje__contains`, modelled as a
  case-sensitive substring test, as Django evaluates it on PostgreSQL and MySQL.
  On SQLite the lookup ignores ASCII case, so there parts named "Filtro" and "filtro" would
  suppress each other's alerts. `Inventory.Sweep` inherits this choice.
- Validators.ValidatePlate: Python's regular expressions are written out as the two shape
  predicates. They differ in one case: `$` also matches before a final line feed, so the
  source accepts "ABCD12\n" while the model rejects it.
- Inventory.MoveStock: the stock column's upper bound is not modelled. A `PositiveIntegerField`
  holds at most 2147483647 on PostgreSQL and MySQL, so there an entry past that bound fails when
  saved, while in the model every entry that keeps the stock at or above 0 succeeds. A save the
  column refuses raises out of the service, which catches only a missing part; the model returns
  it as the `NegativeStock` failure instead of a raised error.
- Inventory.MoveView: the same upper bound is not modelled in the stock view, which adds the
  quantity and saves; there an entry past 2147483647 units fails when saved, while the model
  promises that every entry succeeds.
- Inventory.EntradaThenSalida: every entry succeeds only because the upper bound above is not
  modelled; where the column enforces it, an entry past 2147483647 units fails.
