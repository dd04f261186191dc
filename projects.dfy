/**
 * Projects and their budgets: the project's save (client taken from the
 * quotation it was created from, end date not before start date), the budget
 * filled in from the quotation, and the create serializer with its two
 * validators. Dates are day numbers; money is exact.
 */
module Projects {
  import opened Wrappers
  import opened Text
  import opened Quotes

  const DateOrderMessage := "End date cannot be before start date."
  const QuotationRequiredMessage := "Quotation is required"
  const DefaultCurrency := "INR"

  /** The validated fields of a new project; client and currency are not among them. */
  datatype ProjectData = ProjectData(projectName: string, startDate: int, endDate: int,
                                     projectManager: Option<nat>, createdFromQuotation: Option<Quote>)

  class Project {
    var projectName: string
    var client: Option<nat>
    var currency: string
    var startDate: int
    var endDate: int
    var projectManager: Option<nat>
    var createdFromQuotation: Option<Quote>
    /** Whether the row has been written. */
    var persisted: bool

    /** The instance `Project.objects.create(**data)` builds before saving it. */
    constructor (d: ProjectData)
      ensures projectName == d.projectName && client == None && currency == DefaultCurrency
      ensures startDate == d.startDate && endDate == d.endDate
      ensures projectManager == d.projectManager && createdFromQuotation == d.createdFromQuotation
      ensures !persisted
    {
      projectName := d.projectName;
      client := None;
      currency := DefaultCurrency;
      startDate := d.startDate;
      endDate := d.endDate;
      projectManager := d.projectManager;
      createdFromQuotation := d.createdFromQuotation;
      persisted := false;
    }

    /**
     * `save()`: a project made from a quotation takes the quotation's client,
     * even an empty one, before anything is checked; the project manager is
     * never copied (a quote has no such field). An end date before the start
     * date raises and nothing is written; equal dates are accepted.
     */
    method Save() returns (r: Outcome<string>)
      modifies `client, `persisted
      ensures createdFromQuotation.Some? ==> client == createdFromQuotation.value.client
      ensures createdFromQuotation.None? ==> client == old(client)
      ensures r.Fail? <==> endDate < startDate
      ensures r.Fail? ==> r.error == DateOrderMessage && persisted == old(persisted)
      ensures r.Pass? ==> persisted
    {
      if createdFromQuotation.Some? {
        client := createdFromQuotation.value.client;
      }
      if endDate < startDate {
        return Fail(DateOrderMessage);
      }
      persisted := true;
      r := Pass;
    }
  }

  /** The validated budget fields; each is optional. */
  datatype BudgetData = BudgetData(useQuotedAmounts: Option<bool>, totalHours: Option<nat>, totalBudget: Option<real>,
                                   billsAndExpenses: Option<real>, currency: Option<string>)
  {
    /** A dict is truthy when it holds at least one key. */
    predicate IsEmpty() {
      useQuotedAmounts.None? && totalHours.None? && totalBudget.None? && billsAndExpenses.None? && currency.None?
    }
  }

  /** The loop of `apply_quoted_amounts()` adding up the quantities of the items whose unit is "hours". */
  method QuotedHours(lines: seq<Line>) returns (hours: nat)
    ensures hours == HoursTotal(lines)
  {
    hours := 0;
    for i := 0 to |lines|
      invariant hours == HoursTotal(lines[..i])
    {
      assert lines[..i + 1][..i] == lines[..i];
      if lines[i].unit == HoursUnit {
        hours := hours + lines[i].quantity;
      }
    }
    assert lines[..|lines|] == lines;
  }

  class ProjectBudget {
    const project: Project
    var useQuotedAmounts: bool
    var totalHours: Option<nat>
    var totalBudget: Option<real>
    var billsAndExpenses: Option<real>
    var currency: string

    /** `ProjectBudget.objects.create(project=project, **data)`: quoted amounts are used unless said otherwise. */
    constructor (project: Project, d: BudgetData)
      ensures this.project == project
      ensures useQuotedAmounts == d.useQuotedAmounts.GetOr(true)
      ensures totalHours == d.totalHours && totalBudget == d.totalBudget && billsAndExpenses == d.billsAndExpenses
      ensures currency == d.currency.GetOr(DefaultCurrency)
    {
      this.project := project;
      useQuotedAmounts := d.useQuotedAmounts.GetOr(true);
      totalHours := d.totalHours;
      totalBudget := d.totalBudget;
      billsAndExpenses := d.billsAndExpenses;
      currency := d.currency.GetOr(DefaultCurrency);
    }

    /**
     * `apply_quoted_amounts()`: without a quotation it raises and changes
     * nothing; otherwise the hours are the quantities of the quote's items
     * whose unit is "hours", the budget is the quote's total, bills and
     * expenses are its in-house plus outsourced cost, and the currency is the
     * project's (a quote has no currency of its own).
     */
    method ApplyQuotedAmounts() returns (r: Outcome<string>)
      modifies `totalHours, `totalBudget, `billsAndExpenses, `currency
      ensures project.createdFromQuotation.None? ==>
                r == Fail(QuotationRequiredMessage)
                && totalHours == old(totalHours) && totalBudget == old(totalBudget)
                && billsAndExpenses == old(billsAndExpenses) && currency == old(currency)
      ensures project.createdFromQuotation.Some? ==>
                var quote := project.createdFromQuotation.value;
                && r == Pass
                && totalHours == Some(HoursTotal(Lines(quote.items)))
                && totalBudget == Some(quote.totalAmount)
                && billsAndExpenses == Some(quote.inHouseCost + quote.outsourcedCost)
                && currency == project.currency
    {
      if project.createdFromQuotation.None? {
        return Fail(QuotationRequiredMessage);
      }
      var quote := project.createdFromQuotation.value;
      var hours := QuotedHours(Lines(quote.items));
      totalHours := Some(hours);
      totalBudget := Some(quote.totalAmount);
      billsAndExpenses := Some(quote.inHouseCost + quote.outsourcedCost);
      currency := project.currency;
      r := Pass;
    }
  }

  // ---------------------------------------------------------------------------
  // The serializers
  // ---------------------------------------------------------------------------

  /** `f"{field.replace('_',' ')} is required"` */
  function RequiredMessage(field: string): string {
    ReplaceChar(field, '_', ' ') + " is required"
  }

  /** The two messages the budget validator can give. */
  lemma BudgetMessages()
    ensures RequiredMessage("total_hours") == "total hours is required"
    ensures RequiredMessage("total_budget") == "total budget is required"
  {
    assert ReplaceChar("total_hours", '_', ' ') == "total hours";
    assert ReplaceChar("total_budget", '_', ' ') == "total budget";
  }

  /**
   * `ProjectBudgetSerializer.validate(data)`: unless quoted amounts are used,
   * the hours and then the budget must be given and non-zero.
   */
  function ValidateBudget(d: BudgetData): (r: Result<BudgetData, string>)
    ensures r.Failure? <==> d.useQuotedAmounts != Some(true)
                             && (d.totalHours in {None, Some(0)} || d.totalBudget in {None, Some(0.0)})
    ensures r.Failure? && d.totalHours in {None, Some(0)} ==> r.error == "total hours is required"
    ensures r.Failure? && d.totalHours !in {None, Some(0)} ==> r.error == "total budget is required"
    ensures r.Success? ==> r.value == d
  {
    BudgetMessages();
    if d.useQuotedAmounts == Some(true) then Success(d)
    else if d.totalHours.None? || d.totalHours == Some(0) then Failure(RequiredMessage("total_hours"))
    else if d.totalBudget.None? || d.totalBudget == Some(0.0) then Failure(RequiredMessage("total_budget"))
    else Success(d)
  }

  /**
   * The validator reads a missing `use_quoted_amounts` as false, while a budget
   * created from the same data gets the model default, true: such data must
   * carry hours and a budget that the quotation then overwrites.
   */
  lemma ValidatorAndDefaultDisagree()
    ensures var d := BudgetData(None, None, None, None, None);
            ValidateBudget(d).Failure? && d.useQuotedAmounts.GetOr(true)
  {
  }

  /** `ProjectCreateSerializer.validate(data)`: an end date before the start date is refused only when both are given. */
  function ValidateProjectDates(startDate: Option<int>, endDate: Option<int>): (r: Outcome<string>)
    ensures r.Fail? <==> startDate.Some? && endDate.Some? && endDate.value < startDate.value
    ensures r.Fail? ==> r.error == DateOrderMessage
  {
    match (startDate, endDate)
    case (Some(s), Some(e)) => if e < s then Fail(DateOrderMessage) else Pass
    case _ => Pass
  }

  /** The serializer and the model agree on complete dates: both refuse exactly an end before the start. */
  lemma DateChecksAgree(startDate: int, endDate: int)
    ensures ValidateProjectDates(Some(startDate), Some(endDate)).Fail? <==> endDate < startDate
    ensures ValidateProjectDates(Some(startDate), Some(startDate)).Pass?
  {
  }

  /**
   * `ProjectCreateSerializer.create(validated_data)`: the project is created;
   * a budget is created only for non-empty budget data, and it takes the
   * quoted amounts when it uses them. The steps are not atomic: when applying
   * the quoted amounts raises, the project and the budget already exist.
   */
  method CreateProject(d: ProjectData, budgetData: Option<BudgetData>)
    returns (project: Project, budget: Option<ProjectBudget>, r: Outcome<string>)
    ensures fresh(project) && project.projectName == d.projectName && project.createdFromQuotation == d.createdFromQuotation
    ensures d.createdFromQuotation.Some? ==> project.client == d.createdFromQuotation.value.client
    ensures d.endDate < d.startDate ==> r == Fail(DateOrderMessage) && budget.None? && !project.persisted
    ensures d.endDate >= d.startDate ==> project.persisted
    ensures d.endDate >= d.startDate && (budgetData.None? || budgetData.value.IsEmpty()) ==> budget.None? && r == Pass
    ensures d.endDate >= d.startDate && budgetData.Some? && !budgetData.value.IsEmpty() ==>
              && budget.Some? && fresh(budget.value) && budget.value.project == project
              && budget.value.useQuotedAmounts == budgetData.value.useQuotedAmounts.GetOr(true)
              && (budget.value.useQuotedAmounts && d.createdFromQuotation.None? ==> r == Fail(QuotationRequiredMessage))
              && (budget.value.useQuotedAmounts && d.createdFromQuotation.Some? ==>
                    r == Pass && budget.value.totalBudget == Some(d.createdFromQuotation.value.totalAmount)
                    && budget.value.totalHours == Some(HoursTotal(Lines(d.createdFromQuotation.value.items))))
              && (!budget.value.useQuotedAmounts ==>
                    r == Pass && budget.value.totalHours == budgetData.value.totalHours
                    && budget.value.totalBudget == budgetData.value.totalBudget)
  {
    project := new Project(d);
    budget := None;
    r := project.Save();
    if r.Fail? {
      return;
    }
    if budgetData.Some? && !budgetData.value.IsEmpty() {
      var b := new ProjectBudget(project, budgetData.value);
      budget := Some(b);
      if b.useQuotedAmounts {
        r := b.ApplyQuotedAmounts();
      }
    }
  }
}
