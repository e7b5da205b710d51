// The lookup data of the processing service: the source column names of the
// humanitarian-aid dashboard, their English rename map, the dashboard names
// and the English table names.

module Constants {
  import opened Frames

  // The source column names of the humanitarian-aid dashboard.
  const ItemNo := "№ п/п"
  const TransferDate := "Дата передачи имущества"
  const AssetName := "Наименование материальны средств (оказанных услуг)"
  const BrandModel := "Марка, модель передаваемых материальных средств"
  const Unit := "Ед. изм."
  const Need := "Потребность по поступившей заявке в/ч"
  const RequestSender := "Отправитель заявки"
  const Quantity := "Кол-во переданного имущества"
  const Recipient := "Кому передано имущество (оказаны услуги)"
  const SpentFunds := "Затраченные финансовые средщства, тыс. руб"
  const Unmet := "Кол-во не реализованного по заявке имущества"
  const Subject := "Субъект РФ"
  const GovernmentBody := "ОИВ субъекта РФ (организация), осуществляющая закупку"
  const Contractor := "Сведения о контрагенте (наименование организации, телефон, сайт)"
  const WhatTransferred := "Что передали"
  const Year := "Год"
  const Month := "Месяц"
  const MonthName := "Месяц_назв"
  const RequestedInUnits := "Сколько запросили в еденицах"
  const TransferredInUnits := "Сколько передали в еденицах"

  /** `EN_HASVO_COLS`: the English name of every humanitarian-aid column. */
  const EnHasvoCols: map<string, string> := map[
    ItemNo := "item_no",
    TransferDate := "date",
    AssetName := "name_of_material_assets",
    BrandModel := "brand_model_of_material_assets",
    Unit := "unit",
    Need := "need",
    RequestSender := "request_sender",
    Quantity := "quantity",
    Recipient := "to_whom",
    SpentFunds := "spent_financial_resources",
    Unmet := "quantity_of_unfulfilled_request_assets",
    Subject := "subject",
    GovernmentBody := "government_body",
    Contractor := "information_about_the_organization",
    WhatTransferred := "what_was_transferred",
    Year := "year",
    Month := "month",
    MonthName := "month_name",
    RequestedInUnits := "quantity_requested",
    TransferredInUnits := "quantity_transferred"]

  /** The source names, in the order the map lists them. */
  const HasvoSourceNames: seq<string> := [
    ItemNo, TransferDate, AssetName, BrandModel, Unit, Need, RequestSender, Quantity,
    Recipient, SpentFunds, Unmet, Subject, GovernmentBody, Contractor, WhatTransferred,
    Year, Month, MonthName, RequestedInUnits, TransferredInUnits]

  /** A map no two of whose keys share a value. */
  predicate Injective(m: map<string, string>)
  {
    forall a, b :: a in m && b in m && a != b ==> m[a] != m[b]
  }

  /** The map has exactly the twenty listed source names as keys, each once. */
  lemma HasvoColsKeys()
    ensures EnHasvoCols.Keys == set n | n in HasvoSourceNames
    ensures |HasvoSourceNames| == 20
    ensures forall i, j :: 0 <= i < j < |HasvoSourceNames| ==> HasvoSourceNames[i] != HasvoSourceNames[j]
  {
  }

  /** The source name behind an English column name: the reverse lookup. */
  function HasvoSourceName(english: string): Option<string>
  {
    if english == "item_no" then Some(ItemNo)
    else if english == "date" then Some(TransferDate)
    else if english == "name_of_material_assets" then Some(AssetName)
    else if english == "brand_model_of_material_assets" then Some(BrandModel)
    else if english == "unit" then Some(Unit)
    else if english == "need" then Some(Need)
    else if english == "request_sender" then Some(RequestSender)
    else if english == "quantity" then Some(Quantity)
    else if english == "to_whom" then Some(Recipient)
    else if english == "spent_financial_resources" then Some(SpentFunds)
    else if english == "quantity_of_unfulfilled_request_assets" then Some(Unmet)
    else if english == "subject" then Some(Subject)
    else if english == "government_body" then Some(GovernmentBody)
    else if english == "information_about_the_organization" then Some(Contractor)
    else if english == "what_was_transferred" then Some(WhatTransferred)
    else if english == "year" then Some(Year)
    else if english == "month" then Some(Month)
    else if english == "month_name" then Some(MonthName)
    else if english == "quantity_requested" then Some(RequestedInUnits)
    else if english == "quantity_transferred" then Some(TransferredInUnits)
    else None
  }

  /** Every source name is recovered from its English name. */
  lemma HasvoColsRoundTrip(n: string)
    requires n in EnHasvoCols
    ensures HasvoSourceName(EnHasvoCols[n]) == Some(n)
  {
  }

  /** Distinct source names get distinct English names, so the rename never
      merges two columns of the dashboard. */
  lemma HasvoColsInjective()
    ensures Injective(EnHasvoCols)
  {
    forall a, b | a in EnHasvoCols && b in EnHasvoCols && a != b
      ensures EnHasvoCols[a] != EnHasvoCols[b]
    {
      HasvoColsRoundTrip(a);
      HasvoColsRoundTrip(b);
    }
  }

  /** No English name is itself a source name, so renaming twice changes
      nothing more. */
  lemma HasvoColsNamesDisjoint()
    ensures forall n :: n in EnHasvoCols ==> EnHasvoCols[n] !in EnHasvoCols
  {
  }

  /** Every column the transform creates has an English name. */
  lemma HasvoColsCoverCreated()
    ensures WhatTransferred in EnHasvoCols && EnHasvoCols[WhatTransferred] == "what_was_transferred"
    ensures Year in EnHasvoCols && EnHasvoCols[Year] == "year"
    ensures Month in EnHasvoCols && EnHasvoCols[Month] == "month"
    ensures MonthName in EnHasvoCols && EnHasvoCols[MonthName] == "month_name"
    ensures RequestedInUnits in EnHasvoCols && EnHasvoCols[RequestedInUnits] == "quantity_requested"
    ensures TransferredInUnits in EnHasvoCols && EnHasvoCols[TransferredInUnits] == "quantity_transferred"
  {
  }

  /** Every source column the transform reads or rewrites has an English name. */
  lemma HasvoColsCoverRead()
    ensures TransferDate in EnHasvoCols && EnHasvoCols[TransferDate] == "date"
    ensures Need in EnHasvoCols && EnHasvoCols[Need] == "need"
    ensures Quantity in EnHasvoCols && EnHasvoCols[Quantity] == "quantity"
    ensures Unit in EnHasvoCols && EnHasvoCols[Unit] == "unit"
    ensures Unmet in EnHasvoCols && EnHasvoCols[Unmet] == "quantity_of_unfulfilled_request_assets"
    ensures AssetName in EnHasvoCols && RequestSender in EnHasvoCols && Recipient in EnHasvoCols
    ensures GovernmentBody in EnHasvoCols && Contractor in EnHasvoCols
    ensures ItemNo in EnHasvoCols && SpentFunds in EnHasvoCols
  {
  }

  /** The columns the transform reads and writes are distinct names. */
  lemma TransformColumnsDistinct()
    ensures TransferDate != Unit && TransferDate != Need && TransferDate != Quantity && TransferDate != Unmet && TransferDate != Year && TransferDate != Month && TransferDate != MonthName && TransferDate != RequestedInUnits && TransferDate != TransferredInUnits
    ensures Unit != Need && Unit != Quantity && Unit != Unmet && Unit != Year && Unit != Month && Unit != MonthName && Unit != RequestedInUnits && Unit != TransferredInUnits
    ensures Need != Quantity && Need != Unmet && Need != Year && Need != Month && Need != MonthName && Need != RequestedInUnits && Need != TransferredInUnits
    ensures Quantity != Unmet && Quantity != Year && Quantity != Month && Quantity != MonthName && Quantity != RequestedInUnits && Quantity != TransferredInUnits
    ensures Unmet != Year && Unmet != Month && Unmet != MonthName && Unmet != RequestedInUnits && Unmet != TransferredInUnits
    ensures Year != Month && Year != MonthName && Year != RequestedInUnits && Year != TransferredInUnits
    ensures Month != MonthName && Month != RequestedInUnits && Month != TransferredInUnits
    ensures MonthName != RequestedInUnits && MonthName != TransferredInUnits
    ensures RequestedInUnits != TransferredInUnits
  {
  }

  /** `DasboardName`: the dashboards documents are uploaded for. */
  datatype DashboardName =
    | GummanitarnayaPomoshchSvo | Aip | Oep | Kok | Fns | Kcr | Oiv
    | Soczashchita | NovyjFns | Importozameshchenie | WoutCategory
  {
    /** The member's `.value`. */
    function Value(): string
    {
      match this
      case GummanitarnayaPomoshchSvo => "ГуманитарнаяПомощьСВО"
      case Aip => "АИП"
      case Oep => "ОЭП"
      case Kok => "КОК"
      case Fns => "ФНС"
      case Kcr => "КЦР"
      case Oiv => "ОИВ"
      case Soczashchita => "Соцзащита"
      case NovyjFns => "НовыйФНС"
      case Importozameshchenie => "Импортозамещение"
      case WoutCategory => ""
    }
  }

  /** `DasboardName(value)`: the member with this value, if there is one. */
  function DashboardByValue(value: string): (r: Option<DashboardName>)
    ensures r.Some? ==> r.value.Value() == value
  {
    if value == "ГуманитарнаяПомощьСВО" then Some(GummanitarnayaPomoshchSvo)
    else if value == "АИП" then Some(Aip)
    else if value == "ОЭП" then Some(Oep)
    else if value == "КОК" then Some(Kok)
    else if value == "ФНС" then Some(Fns)
    else if value == "КЦР" then Some(Kcr)
    else if value == "ОИВ" then Some(Oiv)
    else if value == "Соцзащита" then Some(Soczashchita)
    else if value == "НовыйФНС" then Some(NovyjFns)
    else if value == "Импортозамещение" then Some(Importozameshchenie)
    else if value == "" then Some(WoutCategory)
    else None
  }

  /** Every member is found again from its value, so no two members share a
      value and an equality test on the value selects exactly one member. */
  lemma DashboardValueRoundTrip(d: DashboardName)
    ensures DashboardByValue(d.Value()) == Some(d)
  {
  }

  lemma DashboardValueInjective(d: DashboardName, e: DashboardName)
    requires d.Value() == e.Value()
    ensures d == e
  {
    DashboardValueRoundTrip(d);
    DashboardValueRoundTrip(e);
  }

  /** Only the catch-all member has the empty value. */
  lemma OnlyWoutCategoryIsEmpty(d: DashboardName)
    ensures d.Value() == "" <==> d == WoutCategory
  {
  }

  /** `EN_TABLE_NAMES_NORMALIZED`: the English table name of a dashboard. */
  const EnTableNamesNormalized: map<string, string> := map[
    "ГуманитарнаяПомощьСВО" := "hummanitarian_aid_svo",
    "АИП" := "aip"]

  /** The humanitarian-aid and АИП dashboards, and only they, have English
      table names. */
  lemma EnTableNames(d: DashboardName)
    ensures d.Value() in EnTableNamesNormalized <==> d == GummanitarnayaPomoshchSvo || d == Aip
    ensures EnTableNamesNormalized[GummanitarnayaPomoshchSvo.Value()] == "hummanitarian_aid_svo"
    ensures EnTableNamesNormalized[Aip.Value()] == "aip"
  {
  }
}
