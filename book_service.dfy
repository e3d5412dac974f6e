/**
 * The customer's booking wizard: choose a category, then a service, then a worker whose
 * skills fit, adjust the offered price to the worker's minimum, and send a pending booking
 * request.
 */
module BookService {
  import opened Common
  import opened JsText
  import opened Bookings

  datatype Category = Category(id: string, name: string)

  datatype Service = Service(id: string, categoryId: string, name: string, basePrice: int)

  /** A worker's `skills` column: absent, a plain string (one that is not JSON, so parsing it
      throws), or a list. A string holding a JSON list is represented by that list. */
  datatype Skills = NoSkills | SkillText(text: string) | SkillList(list: seq<string>)

  /** A worker row as read from the store; every field except the id may be absent. */
  datatype WorkerRow = WorkerRow(
    id: string,
    fullName: Option<string>,
    name: Option<string>,
    bio: Option<string>,
    experienceYears: Option<int>,
    location: Option<string>,
    skills: Skills,
    phoneNumber: Option<string>,
    phone: Option<string>,
    minPrice: Option<int>,
    maxDistanceKm: Option<int>)

  datatype WorkerProfile = WorkerProfile(
    id: string,
    fullName: string,
    bio: string,
    experienceYears: int,
    location: string,
    skills: seq<string>,
    phoneNumber: string)

  /** A worker offered for the selected service. */
  datatype WorkerService = WorkerService(
    workerId: string,
    serviceId: string,
    minPrice: int,
    maxDistanceKm: int,
    worker: WorkerProfile)

  // ---------------------------------------------------------------------------
  // The skill filter
  // ---------------------------------------------------------------------------

  /** `!worker.skills` is false: the column is present and not the empty string. */
  predicate SkillsTruthy(s: Skills) {
    s.SkillList? || (s.SkillText? && s.text != "")
  }

  /** The lowercased skills the filter tests: a plain string becomes a one-skill list. */
  function LoweredSkills(s: Skills): (r: seq<string>)
    ensures s.SkillList? ==> |r| == |s.list| && forall k :: 0 <= k < |r| ==> r[k] == ToLower(s.list[k])
    ensures s.SkillText? ==> r == [ToLower(s.text)]
    ensures s.NoSkills? ==> r == []
  {
    match s
    case NoSkills => []
    case SkillText(t) => [ToLower(t)]
    case SkillList(l) => seq(|l|, k requires 0 <= k < |l| => ToLower(l[k]))
  }

  /** The extra words a lowercased category name accepts. */
  function Synonyms(categoryName: string): seq<string> {
    if categoryName == "plumbing" then ["plumber", "plumbing"]
    else if categoryName == "electrical" then ["electrician", "electrical"]
    else if categoryName == "carpentry" then ["carpenter", "carpentry"]
    else if categoryName == "cleaning" then ["cleaner", "cleaning", "maid"]
    else if categoryName == "painting" then ["painter", "painting"]
    else []
  }

  /** One lowercased skill fits when it contains the category name, the service name, or a
      synonym of the category (absent names are the empty string). */
  predicate SkillFits(skill: string, categoryName: string, serviceName: string) {
    Includes(skill, categoryName) || Includes(skill, serviceName)
    || exists k :: 0 <= k < |Synonyms(categoryName)| && Includes(skill, Synonyms(categoryName)[k])
  }

  /** The filter of `fetchAvailableWorkers`: present skills, one of which fits. */
  predicate WorkerFits(row: WorkerRow, categoryName: string, serviceName: string) {
    SkillsTruthy(row.skills)
    && exists k :: 0 <= k < |LoweredSkills(row.skills)| && SkillFits(LoweredSkills(row.skills)[k], categoryName, serviceName)
  }

  /** A worker without skills is never offered, whatever the names. */
  lemma NoSkillsNeverFit(row: WorkerRow, categoryName: string, serviceName: string)
    requires row.skills.NoSkills? || row.skills == SkillText("") || row.skills == SkillList([])
    ensures !WorkerFits(row, categoryName, serviceName)
  {
  }

  /** An empty category or service name is contained in every skill, so every worker with at
      least one skill fits. */
  lemma EmptyNameFitsEveryone(row: WorkerRow, categoryName: string, serviceName: string)
    requires categoryName == "" || serviceName == ""
    requires SkillsTruthy(row.skills) && LoweredSkills(row.skills) != []
    ensures WorkerFits(row, categoryName, serviceName)
  {
    var s := LoweredSkills(row.skills)[0];
    IncludesTrivial(s);
    assert SkillFits(s, categoryName, serviceName);
  }

  /** A skill naming a trade fits its category through the synonym list, even when it does
      not contain the category's own name ("plumber" for "plumbing"). */
  lemma SynonymFits(skill: string, categoryName: string, serviceName: string, k: int)
    requires 0 <= k < |Synonyms(categoryName)|
    requires Includes(skill, Synonyms(categoryName)[k])
    ensures SkillFits(skill, categoryName, serviceName)
  {
  }

  /** The rows that pass the filter, in order. */
  function FittingRows(rows: seq<WorkerRow>, categoryName: string, serviceName: string): (r: seq<WorkerRow>)
    ensures |r| <= |rows|
    ensures forall row :: row in r <==> row in rows && WorkerFits(row, categoryName, serviceName)
    decreases |rows|
  {
    if rows == [] then []
    else
      (if WorkerFits(rows[0], categoryName, serviceName) then [rows[0]] else [])
      + FittingRows(rows[1..], categoryName, serviceName)
  }

  // ---------------------------------------------------------------------------
  // Formatting a worker
  // ---------------------------------------------------------------------------

  /** `value || fallback` for text. */
  function TextOr(v: Option<string>, fallback: string): string {
    if v.Some? && v.value != "" then v.value else fallback
  }

  /** `value || fallback` for numbers. */
  function NumberOr(v: Option<int>, fallback: int): int {
    if v.Some? && v.value != 0 then v.value else fallback
  }

  /** `${categoryName}` in a template: an absent name prints as "undefined". */
  function Interpolate(v: Option<string>): string {
    if v.Some? then v.value else "undefined"
  }

  /** The display record of a matching worker, or `None` when its skills are a plain string,
      whose `JSON.parse` throws. */
  function FormatWorker(row: WorkerRow, serviceId: string, categoryName: Option<string>): (r: Option<WorkerService>)
    ensures r.None? <==> row.skills.SkillText?
    ensures r.Some? ==>
      && r.value.workerId == row.id && r.value.serviceId == serviceId && r.value.worker.id == row.id
      && r.value.minPrice == (if row.minPrice.Some? && row.minPrice.value != 0 then row.minPrice.value else 0)
      && r.value.maxDistanceKm == (if row.maxDistanceKm.Some? && row.maxDistanceKm.value != 0 then row.maxDistanceKm.value else 10)
      && r.value.worker.experienceYears == (if row.experienceYears.Some? && row.experienceYears.value != 0 then row.experienceYears.value else 2)
      && r.value.worker.skills == (if row.skills.SkillList? then row.skills.list else [])
  {
    if row.skills.SkillText? then None
    else
      Some(WorkerService(
        row.id,
        serviceId,
        NumberOr(row.minPrice, 0),
        NumberOr(row.maxDistanceKm, 10),
        WorkerProfile(
          row.id,
          TextOr(row.fullName, TextOr(row.name, "Professional Worker")),
          TextOr(row.bio, "Experienced " + Interpolate(categoryName) + " professional with quality service"),
          NumberOr(row.experienceYears, 2),
          TextOr(row.location, "Your Area"),
          if row.skills.SkillList? then row.skills.list else [],
          TextOr(row.phoneNumber, TextOr(row.phone, "9876543210")))))
  }

  /** The texts of a formatted worker: each filled column is shown as it is, and an absent or
      empty one gives way to the next column or to the placeholder. */
  lemma FormatWorkerTexts(row: WorkerRow, serviceId: string, categoryName: Option<string>)
    requires !row.skills.SkillText?
    ensures var w := FormatWorker(row, serviceId, categoryName).value.worker;
      && w.fullName == (if row.fullName.Some? && row.fullName.value != "" then row.fullName.value
                        else if row.name.Some? && row.name.value != "" then row.name.value
                        else "Professional Worker")
      && w.bio == (if row.bio.Some? && row.bio.value != "" then row.bio.value
                   else "Experienced " + (if categoryName.Some? then categoryName.value else "undefined")
                        + " professional with quality service")
      && w.location == (if row.location.Some? && row.location.value != "" then row.location.value else "Your Area")
      && w.phoneNumber == (if row.phoneNumber.Some? && row.phoneNumber.value != "" then row.phoneNumber.value
                           else if row.phone.Some? && row.phone.value != "" then row.phone.value
                           else "9876543210")
  {
  }

  /** The `map` over the matching rows: one plain-string row makes the whole `map` throw. */
  function FormatAll(rows: seq<WorkerRow>, serviceId: string, categoryName: Option<string>): (r: Option<seq<WorkerService>>)
    ensures r.Some? <==> forall k :: 0 <= k < |rows| ==> !rows[k].skills.SkillText?
    ensures r.Some? ==>
      && |r.value| == |rows|
      && forall k :: 0 <= k < |rows| ==> Some(r.value[k]) == FormatWorker(rows[k], serviceId, categoryName)
  {
    if forall k :: 0 <= k < |rows| ==> !rows[k].skills.SkillText? then
      Some(seq(|rows|, k requires 0 <= k < |rows| && !rows[k].skills.SkillText? =>
        FormatWorker(rows[k], serviceId, categoryName).value))
    else None
  }

  function NameOf(c: Option<Category>): Option<string> {
    if c.Some? then Some(ToLower(c.value.name)) else None
  }

  function ServiceNameOf(s: Option<Service>): Option<string> {
    if s.Some? then Some(ToLower(s.value.name)) else None
  }

  /** `fetchAvailableWorkers` given the worker rows read (or a failed read): the fitting rows,
      formatted, with every failure leaving the list empty. `service` is the service whose
      name the filter reads. */
  function ShownWorkers(rows: seq<WorkerRow>, fails: bool, category: Option<Category>, service: Option<Service>, serviceId: string): (r: seq<WorkerService>)
    ensures fails ==> r == []
    ensures forall ws :: ws in r ==>
      exists row :: row in rows && row.id == ws.workerId
        && WorkerFits(row, NameOf(category).GetOr(""), ServiceNameOf(service).GetOr(""))
    ensures forall ws :: ws in r ==> ws.serviceId == serviceId
  {
    var fitting := FittingRows(rows, NameOf(category).GetOr(""), ServiceNameOf(service).GetOr(""));
    if fails || rows == [] then []
    else
      var formatted := FormatAll(fitting, serviceId, NameOf(category));
      if formatted.None? then []
      else
        FormattedFromFitting(rows, NameOf(category).GetOr(""), ServiceNameOf(service).GetOr(""), serviceId, NameOf(category));
        formatted.value
  }

  /** Every formatted worker comes from a fitting row and carries the service id. */
  lemma FormattedFromFitting(rows: seq<WorkerRow>, categoryName: string, serviceName: string, serviceId: string, name: Option<string>)
    requires FormatAll(FittingRows(rows, categoryName, serviceName), serviceId, name).Some?
    ensures forall ws :: ws in FormatAll(FittingRows(rows, categoryName, serviceName), serviceId, name).value ==>
      && ws.serviceId == serviceId
      && exists row :: row in rows && row.id == ws.workerId && WorkerFits(row, categoryName, serviceName)
  {
    var fitting := FittingRows(rows, categoryName, serviceName);
    var formatted := FormatAll(fitting, serviceId, name).value;
    forall ws | ws in formatted
      ensures ws.serviceId == serviceId
      ensures exists row :: row in rows && row.id == ws.workerId && WorkerFits(row, categoryName, serviceName)
    {
      var k :| 0 <= k < |formatted| && formatted[k] == ws;
      assert Some(ws) == FormatWorker(fitting[k], serviceId, name);
      assert fitting[k] in fitting;
    }
  }

  /** When no fitting row holds its skills as a plain string, every fitting worker is shown. */
  lemma FittingWorkersShown(rows: seq<WorkerRow>, category: Option<Category>, service: Option<Service>, serviceId: string, row: WorkerRow)
    requires row in rows && WorkerFits(row, NameOf(category).GetOr(""), ServiceNameOf(service).GetOr(""))
    requires forall r :: r in rows ==> !r.skills.SkillText?
    ensures exists ws :: ws in ShownWorkers(rows, false, category, service, serviceId) && ws.workerId == row.id
  {
    var categoryName, serviceName := NameOf(category).GetOr(""), ServiceNameOf(service).GetOr("");
    var fitting := FittingRows(rows, categoryName, serviceName);
    FittingRowsFormat(rows, categoryName, serviceName, serviceId, NameOf(category));
    ShownIsFormatted(rows, category, service, serviceId);
    var k := FittingIndex(rows, categoryName, serviceName, row);
    FormattedRowShown(fitting, serviceId, NameOf(category), k);
    var shown := FormatAll(fitting, serviceId, NameOf(category)).value;
    assert shown[k] in shown;
  }

  lemma ShownIsFormatted(rows: seq<WorkerRow>, category: Option<Category>, service: Option<Service>, serviceId: string)
    requires rows != []
    requires FormatAll(FittingRows(rows, NameOf(category).GetOr(""), ServiceNameOf(service).GetOr("")), serviceId, NameOf(category)).Some?
    ensures ShownWorkers(rows, false, category, service, serviceId)
      == FormatAll(FittingRows(rows, NameOf(category).GetOr(""), ServiceNameOf(service).GetOr("")), serviceId, NameOf(category)).value
  {
  }

  lemma FittingIndex(rows: seq<WorkerRow>, categoryName: string, serviceName: string, row: WorkerRow) returns (k: int)
    requires row in rows && WorkerFits(row, categoryName, serviceName)
    ensures 0 <= k < |FittingRows(rows, categoryName, serviceName)| && FittingRows(rows, categoryName, serviceName)[k] == row
  {
    var fitting := FittingRows(rows, categoryName, serviceName);
    assert row in fitting;
    k :| 0 <= k < |fitting| && fitting[k] == row;
  }

  /** Rows without plain-string skills all format. */
  lemma FittingRowsFormat(rows: seq<WorkerRow>, categoryName: string, serviceName: string, serviceId: string, name: Option<string>)
    requires forall r :: r in rows ==> !r.skills.SkillText?
    ensures FormatAll(FittingRows(rows, categoryName, serviceName), serviceId, name).Some?
  {
    var fitting := FittingRows(rows, categoryName, serviceName);
    assert forall j :: 0 <= j < |fitting| ==> fitting[j] in rows;
  }

  /** A row that formats appears, by id, in the formatted list. */
  lemma FormattedRowShown(rows: seq<WorkerRow>, serviceId: string, name: Option<string>, k: int)
    requires FormatAll(rows, serviceId, name).Some? && 0 <= k < |rows|
    ensures k < |FormatAll(rows, serviceId, name).value| && FormatAll(rows, serviceId, name).value[k].workerId == rows[k].id
  {
    var formatted := FormatAll(rows, serviceId, name).value;
    assert Some(formatted[k]) == FormatWorker(rows[k], serviceId, name);
  }

  // ---------------------------------------------------------------------------
  // The stale service name
  // ---------------------------------------------------------------------------

  /** The workers `handleServiceSelect` shows as written. The handler's `fetchAvailableWorkers`
      reads `selectedService` from the render the click came from, and the service list only
      renders while no service is selected, so the name it filters by is always absent and
      `includes('')` lets through every worker with a skill. */
  function WorkersAfterServiceSelectAsWritten(rows: seq<WorkerRow>, fails: bool, category: Option<Category>, service: Service): (r: seq<WorkerService>)
    ensures forall ws :: ws in r ==> ws.serviceId == service.id
    ensures !fails && (forall x :: x in rows ==> !x.skills.SkillText?) ==>
      forall row :: row in rows && SkillsTruthy(row.skills) && LoweredSkills(row.skills) != [] ==>
        exists ws :: ws in r && ws.workerId == row.id
  {
    if !fails && (forall x :: x in rows ==> !x.skills.SkillText?) then
      AsWrittenShowsEverySkilledWorker(rows, category, service);
      ShownWorkers(rows, fails, category, None, service.id)
    else
      ShownWorkers(rows, fails, category, None, service.id)
  }

  /** With the service name absent, every worker with a skill is shown, whatever the category. */
  lemma AsWrittenShowsEverySkilledWorker(rows: seq<WorkerRow>, category: Option<Category>, service: Service)
    requires forall x :: x in rows ==> !x.skills.SkillText?
    ensures forall row :: row in rows && SkillsTruthy(row.skills) && LoweredSkills(row.skills) != [] ==>
      exists ws :: ws in ShownWorkers(rows, false, category, None, service.id) && ws.workerId == row.id
  {
    assert ServiceNameOf(None).GetOr("") == "";
    forall row | row in rows && SkillsTruthy(row.skills) && LoweredSkills(row.skills) != []
      ensures exists ws :: ws in ShownWorkers(rows, false, category, None, service.id) && ws.workerId == row.id
    {
      EmptyNameFitsEveryone(row, NameOf(category).GetOr(""), "");
      FittingWorkersShown(rows, category, None, service.id, row);
    }
  }

  /** The workers for the service just clicked. */
  function WorkersAfterServiceSelect(rows: seq<WorkerRow>, fails: bool, category: Option<Category>, service: Service): (r: seq<WorkerService>)
    ensures forall ws :: ws in r ==>
      exists row :: row in rows && row.id == ws.workerId
        && WorkerFits(row, NameOf(category).GetOr(""), ToLower(service.name))
  {
    ShownWorkers(rows, fails, category, Some(service), service.id)
  }

  /** Selecting a service shows a worker whose only skill is unrelated to the category and the
      service: the plumbing category, the "Pipe
      Repair" service, and a worker skilled in "driving". With the service just clicked, that
      worker is filtered out. */
  lemma StaleServiceNameShowsUnrelatedWorker()
    ensures |WorkersAfterServiceSelectAsWritten([Driver()], false, Some(Plumbing()), PipeRepair())| == 1
    ensures WorkersAfterServiceSelect([Driver()], false, Some(Plumbing()), PipeRepair()) == []
  {
    AsWrittenShowsDriver();
    CorrectedHidesDriver();
  }

  lemma AsWrittenShowsDriver()
    ensures |ShownWorkers([Driver()], false, Some(Plumbing()), None, PipeRepair().id)| == 1
  {
    LowercaseExample();
    assert NameOf(Some(Plumbing())).GetOr("") == "plumbing";
    assert ServiceNameOf(None).GetOr("") == "";
    EmptyNameFitsEveryone(Driver(), "plumbing", "");
    var fitting := FittingRows([Driver()], "plumbing", "");
    assert fitting == [Driver()];
    assert !fitting[0].skills.SkillText?;
    var formatted := FormatAll(fitting, PipeRepair().id, NameOf(Some(Plumbing())));
    assert formatted.Some?;
  }

  lemma CorrectedHidesDriver()
    ensures ShownWorkers([Driver()], false, Some(Plumbing()), Some(PipeRepair()), PipeRepair().id) == []
  {
    LowercaseExample();
    assert NameOf(Some(Plumbing())).GetOr("") == "plumbing";
    assert ServiceNameOf(Some(PipeRepair())).GetOr("") == "pipe repair";
    DriverDoesNotFit();
    var fitting := FittingRows([Driver()], "plumbing", "pipe repair");
    assert fitting == [];
  }

  function Plumbing(): Category {
    Category("1", "Plumbing")
  }

  function PipeRepair(): Service {
    Service("1-1", "1", "Pipe Repair", 500)
  }

  function Driver(): WorkerRow {
    WorkerRow("w1", Some("Ravi"), None, None, None, None, SkillList(["driving"]), None, None, None, None)
  }

  lemma LowercaseExample()
    ensures ToLower("Plumbing") == "plumbing"
    ensures ToLower("Pipe Repair") == "pipe repair"
    ensures LoweredSkills(Driver().skills) == ["driving"]
  {
    assert ToLower("driving") == "driving";
  }

  lemma DriverDoesNotFit()
    ensures !WorkerFits(Driver(), "plumbing", "pipe repair")
  {
    LowercaseExample();
    DrivingFitsNothing();
  }

  lemma DrivingFitsNothing()
    ensures !SkillFits("driving", "plumbing", "pipe repair")
  {
    NotIncluded("driving", "plumbing");
    NotIncluded("driving", "pipe repair");
    assert "driving"[..7][0] == 'd';
    assert !StartsWith("driving", "plumber");
    NotIncluded("driving"[1..], "plumber");
  }

  /** A word that is longer than the text is not contained in it. */
  lemma NotIncluded(s: string, sub: string)
    requires |sub| > |s|
    ensures !Includes(s, sub)
  {
    IncludesIff(s, sub);
  }

  /** With the service just clicked, a worker none of whose skills mentions the category,
      the service or a synonym of the category is never offered. */
  lemma UnrelatedWorkerNotOffered(rows: seq<WorkerRow>, fails: bool, category: Category, service: Service, id: string)
    requires forall row :: row in rows && row.id == id ==>
      forall k :: 0 <= k < |LoweredSkills(row.skills)| ==> !SkillFits(LoweredSkills(row.skills)[k], ToLower(category.name), ToLower(service.name))
    ensures forall ws :: ws in WorkersAfterServiceSelect(rows, fails, Some(category), service) ==> ws.workerId != id
  {
  }

  // ---------------------------------------------------------------------------
  // Prices and the request
  // ---------------------------------------------------------------------------

  /** `Math.max(Number(prev) || 0, minPrice).toString()`. */
  function FlooredPrice(prev: string, minPrice: int): (r: string)
    ensures ToNumber(r) == Some(if ToNumber(prev).GetOr(0) > minPrice then ToNumber(prev).GetOr(0) else minPrice)
  {
    var n := ToNumber(prev).GetOr(0);
    var m := if n > minPrice then n else minPrice;
    IntToStringRoundTrip(m);
    IntToString(m)
  }

  /** The floored price is never below the minimum nor below the typed integer, and flooring
      twice changes nothing. */
  lemma FlooredPriceProperties(prev: string, minPrice: int)
    ensures ToNumber(FlooredPrice(prev, minPrice)).value >= minPrice
    ensures ToNumber(prev).Some? ==> ToNumber(FlooredPrice(prev, minPrice)).value >= ToNumber(prev).value
    ensures FlooredPrice(FlooredPrice(prev, minPrice), minPrice) == FlooredPrice(prev, minPrice)
  {
    var n := ToNumber(prev).GetOr(0);
    var m := if n > minPrice then n else minPrice;
    var r := FlooredPrice(prev, minPrice);
    assert r == IntToString(m);
    assert ToNumber(r) == Some(m);
    assert FlooredPrice(r, minPrice) == IntToString(m);
  }

  /** The booking form. */
  datatype BookingForm = BookingForm(
    description: string,
    location: string,
    preferredDate: string,
    preferredTime: string,
    offeredPrice: string,
    specialInstructions: string,
    customerPhone: string)

  function BlankBookingForm(): BookingForm {
    BookingForm("", "", "", "", "", "", "")
  }

  /** The object inserted into `service_bookings`. The price is `Number(offeredPrice)`; NaN
      is `None`. */
  datatype BookingRequest = BookingRequest(
    customerId: string,
    serviceId: string,
    workerId: string,
    description: string,
    location: string,
    preferredDate: string,
    preferredTime: string,
    offeredPrice: Option<int>,
    specialInstructions: string,
    customerPhone: string,
    status: Status)

  function RequestOf(customerId: string, service: Service, worker: WorkerService, form: BookingForm): (r: BookingRequest)
    ensures r.status == Pending
    ensures r.customerId == customerId && r.serviceId == service.id && r.workerId == worker.workerId
    ensures r.description == form.description && r.location == form.location
  {
    BookingRequest(customerId, service.id, worker.workerId, form.description, form.location,
      form.preferredDate, form.preferredTime, ToNumber(form.offeredPrice), form.specialInstructions,
      form.customerPhone, Pending)
  }

  /** The booking table as far as the wizard writes to it. */
  class BookingRequests {
    var rows: seq<BookingRequest>

    constructor ()
      ensures rows == []
    {
      rows := [];
    }

    /** `from('service_bookings').insert([r])`. */
    method Insert(r: BookingRequest, fails: bool) returns (ok: bool)
      modifies this
      ensures ok == !fails
      ensures rows == if ok then old(rows) + [r] else old(rows)
    {
      ok := !fails;
      if ok {
        rows := rows + [r];
      }
    }
  }

  /** Every request the wizard can write is pending. */
  predicate AllPending(rows: seq<BookingRequest>) {
    forall k :: 0 <= k < |rows| ==> rows[k].status == Pending
  }

  lemma AllPendingSnoc(rows: seq<BookingRequest>, r: BookingRequest)
    requires AllPending(rows) && r.status == Pending
    ensures AllPending(rows + [r])
  {
  }

  class BookingWizard {
    const user: Option<string>
    const table: BookingRequests
    var services: seq<Service>
    var availableWorkers: seq<WorkerService>
    var selectedCategory: Option<Category>
    var selectedService: Option<Service>
    var selectedWorker: Option<WorkerService>
    var form: BookingForm

    constructor (user: Option<string>, table: BookingRequests)
      ensures this.user == user && this.table == table
      ensures services == [] && availableWorkers == []
      ensures selectedCategory == None && selectedService == None && selectedWorker == None
      ensures form == BlankBookingForm()
    {
      this.user := user;
      this.table := table;
      services := [];
      availableWorkers := [];
      selectedCategory := None;
      selectedService := None;
      selectedWorker := None;
      form := BlankBookingForm();
    }

    /** `handleCategorySelect`, given the services read for the category: the service, the
        worker and the worker list are cleared. */
    method CategorySelect(category: Category, fetched: seq<Service>)
      modifies this`selectedCategory, this`selectedService, this`selectedWorker, this`availableWorkers, this`services
      ensures selectedCategory == Some(category)
      ensures selectedService == None && selectedWorker == None && availableWorkers == []
      ensures services == fetched
    {
      selectedCategory := Some(category);
      selectedService := None;
      selectedWorker := None;
      availableWorkers := [];
      services := fetched;
    }

    /** `handleServiceSelect`, given the worker rows read: the service is selected, the worker
        cleared, the offered price set to the service's base price, and the workers for this
        service listed. The list uses the corrected filter `WorkersAfterServiceSelect`; as
        written, the source filters with no service name at all
        (`WorkersAfterServiceSelectAsWritten`). */
    method ServiceSelect(service: Service, rows: seq<WorkerRow>, fails: bool)
      modifies this`selectedService, this`selectedWorker, this`form, this`availableWorkers
      ensures selectedService == Some(service) && selectedWorker == None
      ensures form == old(form).(offeredPrice := IntToString(service.basePrice))
      ensures availableWorkers == WorkersAfterServiceSelect(rows, fails, selectedCategory, service)
    {
      selectedService := Some(service);
      selectedWorker := None;
      form := form.(offeredPrice := IntToString(service.basePrice));
      availableWorkers := WorkersAfterServiceSelect(rows, fails, selectedCategory, service);
    }

    /** `handleWorkerSelect`: a worker with a minimum price raises the offered price to it. */
    method WorkerSelect(ws: WorkerService)
      modifies this`selectedWorker, this`form
      ensures selectedWorker == Some(ws)
      ensures ws.minPrice > 0 ==> form == old(form).(offeredPrice := FlooredPrice(old(form).offeredPrice, ws.minPrice))
      ensures ws.minPrice <= 0 ==> form == old(form)
    {
      selectedWorker := Some(ws);
      if ws.minPrice > 0 {
        form := form.(offeredPrice := FlooredPrice(form.offeredPrice, ws.minPrice));
      }
    }

    /** `handleBookingSubmit`: nothing happens without a service, a worker and a user; otherwise
        a pending request is inserted and, when that succeeds, the selections and the form are
        reset (the worker list stays). */
    method BookingSubmit(insertFails: bool) returns (ok: bool)
      modifies this`selectedCategory, this`selectedService, this`selectedWorker, this`form, table
      ensures old(selectedService.None? || selectedWorker.None? || user.None?) ==>
        !ok && table.rows == old(table.rows) && unchanged(this)
      ensures old(selectedService.Some? && selectedWorker.Some? && user.Some?) ==>
        && ok == !insertFails
        && table.rows == (if ok then old(table.rows) + [RequestOf(user.value, old(selectedService.value), old(selectedWorker.value), old(form))] else old(table.rows))
      ensures ok ==> selectedCategory == None && selectedService == None && selectedWorker == None && form == BlankBookingForm()
      ensures !ok ==> unchanged(this)
      ensures availableWorkers == old(availableWorkers)
      ensures AllPending(old(table.rows)) ==> AllPending(table.rows)
    {
      if selectedService.None? || selectedWorker.None? || user.None? {
        return false;
      }
      var request := RequestOf(user.value, selectedService.value, selectedWorker.value, form);
      if AllPending(table.rows) {
        AllPendingSnoc(table.rows, request);
      }
      ok := table.Insert(request, insertFails);
      if ok {
        Reset();
      }
    }

    /** The reset after a successful booking: selections and form cleared. */
    method Reset()
      modifies this`selectedCategory, this`selectedService, this`selectedWorker, this`form
      ensures selectedCategory == None && selectedService == None && selectedWorker == None
      ensures form == BlankBookingForm()
    {
      selectedCategory := None;
      selectedService := None;
      selectedWorker := None;
      form := BlankBookingForm();
    }
  }
}
