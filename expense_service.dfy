/** The expense service: the fixed category list, the checks `create` and
    `update` make before anything is sent, the records they send, and the two
    aggregations over the expenses the store returns for one event. */
module ExpenseApi {
  import opened Wrappers
  import opened Seqs
  import opened Js
  import opened Remote

  /** `this.categories`, in this order. */
  const Categories: seq<string> := ["Venue", "Catering", "Marketing", "Equipment", "Travel", "Other"]

  /** The six names are distinct: their initials already differ. */
  lemma CategoriesDistinct()
    ensures forall i, j :: 0 <= i < j < |Categories| ==> Categories[i] != Categories[j]
  {
    var initials := "VCMETO";
    assert forall k :: 0 <= k < |Categories| ==> |Categories[k]| > 0 && Categories[k][0] == initials[k];
  }

  /** `getCategories`: the six names, distinct, in their fixed order. Dafny
      sequences are values, so what a caller does with the copy cannot reach
      `Categories`. */
  function GetCategories(): (names: seq<string>)
    ensures |names| == 6
    ensures forall i, j :: 0 <= i < j < |names| ==> names[i] != names[j]
    ensures forall i :: 0 <= i < 6 ==> names[i] == Categories[i]
  {
    CategoriesDistinct();
    Categories[..]
  }

  /** An expense as the store returns it; `amount` and `category` may be missing. */
  datatype Expense = Expense(id: int, description: string, amount: Option<real>, category: Option<string>, eventId: int)

  /** What `create` receives. */
  datatype ExpenseInput = ExpenseInput(
    eventId: Option<int>, description: Option<string>, amount: Option<JsNumber>,
    category: Option<string>, date: Option<string>)

  /** The record `create` sends to the store. */
  datatype ExpenseRecord = ExpenseRecord(
    name: string, description: string, amount: real, category: string,
    date: string, createdAt: string, eventId: int)

  /** What `update` receives: any subset of the editable fields. */
  datatype ExpensePatch = ExpensePatch(
    description: Option<string>, amount: Option<JsNumber>, category: Option<string>,
    date: Option<string>, eventId: Option<int>)

  /** The record `update` sends: the id and the fields that are sent. */
  datatype ExpenseUpdateRecord = ExpenseUpdateRecord(
    id: int, name: Option<string>, description: Option<string>, amount: Option<real>,
    category: Option<string>, date: Option<string>, eventId: Option<int>)

  /** One validation step and the message it raises when it fails. */
  datatype Check = Check(passed: bool, message: string)

  /** Step `i` is the first of `checks` to fail. */
  predicate FailsFirstAt(checks: seq<Check>, i: nat) {
    i < |checks| && !checks[i].passed && forall j :: 0 <= j < i ==> checks[j].passed
  }

  /** The message of the first failing step, if any. */
  function FirstFailure(checks: seq<Check>): (m: Option<string>)
    ensures m.None? <==> forall i :: 0 <= i < |checks| ==> checks[i].passed
    ensures m.Some? ==> exists i: nat :: FailsFirstAt(checks, i) && m.value == checks[i].message
  {
    if checks == [] then None
    else if !checks[0].passed then
      assert FailsFirstAt(checks, 0);
      Some(checks[0].message)
    else
      var m := FirstFailure(checks[1..]);
      if m.Some? then
        var i: nat :| FailsFirstAt(checks[1..], i) && m.value == checks[1..][i].message;
        assert FailsFirstAt(checks, i + 1);
        m
      else m
  }

  /** The create checks, in the order the source makes them. */
  function CreateChecks(input: ExpenseInput): seq<Check> {
    [ Check(input.eventId.Some? && input.eventId.value != 0, "Event ID is required"),
      Check(input.description.Some? && !IsBlank(input.description.value), "Description is required"),
      Check(input.amount.Some? && input.amount.value.Truthy() && !input.amount.value.AtMostZero(),
            "Amount must be greater than 0"),
      Check(input.category.Some? && input.category.value != "", "Category is required"),
      Check(input.category.Some? && input.category.value in Categories, "Invalid category") ]
  }

  /** The error `create` throws before sending anything: the message of the
      first check that fails, none when all pass; a passing input has a
      non-zero event id, a non-blank description, a finite positive amount
      and one of the six categories. */
  function CreateError(input: ExpenseInput): (err: Option<string>)
    ensures err.None? ==>
              && input.eventId.Some? && input.eventId.value != 0
              && input.description.Some? && !IsBlank(input.description.value)
              && input.amount.Some? && input.amount.value.Finite? && input.amount.value.value > 0.0
              && input.category.Some? && input.category.value in Categories
  {
    if input.eventId.None? || input.eventId.value == 0 then Some("Event ID is required")
    else if input.description.None? || Trim(input.description.value) == "" then Some("Description is required")
    else if input.amount.None? || !input.amount.value.Truthy() || input.amount.value.AtMostZero() then
      Some("Amount must be greater than 0")
    else if input.category.None? || input.category.value == "" then Some("Category is required")
    else if input.category.value !in Categories then Some("Invalid category")
    else None
  }

  /** The chain of `if`s in `create` is the first failure of the ordered checks. */
  lemma CreateErrorIsFirstFailure(input: ExpenseInput)
    ensures CreateError(input) == FirstFailure(CreateChecks(input))
  {
    var cs := CreateChecks(input);
    assert FirstFailure(cs[5..]) == None;
    assert cs[4..][1..] == cs[5..];
    assert cs[3..][1..] == cs[4..];
    assert cs[2..][1..] == cs[3..];
    assert cs[1..][1..] == cs[2..];
    assert FirstFailure(cs[4..]) == if !cs[4].passed then Some(cs[4].message) else None;
    assert FirstFailure(cs[3..]) == if !cs[3].passed then Some(cs[3].message) else FirstFailure(cs[4..]);
    assert FirstFailure(cs[2..]) == if !cs[2].passed then Some(cs[2].message) else FirstFailure(cs[3..]);
    assert FirstFailure(cs[1..]) == if !cs[1].passed then Some(cs[1].message) else FirstFailure(cs[2..]);
  }

  /** What every stored expense satisfies: a positive amount, one of the six
      categories, and a non-empty trimmed description that is also its name. */
  ghost predicate ValidRecord(r: ExpenseRecord) {
    && r.amount > 0.0
    && r.category in Categories
    && r.description != "" && Trim(r.description) == r.description
    && r.name == r.description
  }

  /** `create`: fails with the first check's message, and then nothing is sent;
      otherwise the record keeps the trimmed description as both name and
      description, stamps the current time, and uses `now` as the date when
      none (or an empty one) is given. */
  function CreateRecord(input: ExpenseInput, now: string): (r: Result<ExpenseRecord>)
    ensures r.Failure? <==> CreateError(input).Some?
    ensures r.Failure? ==> r.message == CreateError(input).value
    ensures r.Success? ==>
              && ValidRecord(r.value)
              && r.value.description == Trim(input.description.value)
              && r.value.amount == input.amount.value.value
              && r.value.category == input.category.value
              && r.value.eventId == input.eventId.value
              && r.value.createdAt == now
              && r.value.date == (if input.date.Some? && input.date.value != "" then input.date.value else now)
  {
    match CreateError(input)
    case Some(message) => Failure(message)
    case None =>
      var text := Trim(input.description.value);
      TrimIdempotent(input.description.value);
      Success(ExpenseRecord(
        text, text, input.amount.value.value, input.category.value,
        if input.date.Some? && input.date.value != "" then input.date.value else now,
        now, input.eventId.value))
  }

  /** The error `update` throws before sending anything, checked in this
      order: a supplied blank description, a supplied amount that is not
      positive or is NaN, or a supplied non-empty category outside the list,
      each with its own message. */
  function UpdateError(patch: ExpensePatch): (err: Option<string>)
    ensures err.None? <==>
              && (patch.description.Some? ==> !IsBlank(patch.description.value))
              && (patch.amount.Some? ==> patch.amount.value.Finite? && patch.amount.value.value > 0.0)
              && (patch.category.Some? && patch.category.value != "" ==> patch.category.value in Categories)
    ensures patch.description.Some? && IsBlank(patch.description.value) ==>
              err == Some("Description cannot be empty")
    ensures && !(patch.description.Some? && IsBlank(patch.description.value))
            && patch.amount.Some? && !(patch.amount.value.Finite? && patch.amount.value.value > 0.0) ==>
              err == Some("Amount must be greater than 0")
    ensures && !(patch.description.Some? && IsBlank(patch.description.value))
            && !(patch.amount.Some? && !(patch.amount.value.Finite? && patch.amount.value.value > 0.0))
            && patch.category.Some? && patch.category.value != "" && patch.category.value !in Categories ==>
              err == Some("Invalid category")
  {
    if patch.description.Some? && Trim(patch.description.value) == "" then Some("Description cannot be empty")
    else if patch.amount.Some? && (patch.amount.value.AtMostZero() || patch.amount.value.NaN?) then
      Some("Amount must be greater than 0")
    else if patch.category.Some? && patch.category.value != "" && patch.category.value !in Categories then
      Some("Invalid category")
    else None
  }

  /** `update`: fails as `UpdateError` says, and then nothing is sent;
      otherwise the record holds the id and exactly the supplied fields that
      are truthy, a description trimmed and mirrored into the name. An empty
      category, an empty date or a zero event id are not sent. */
  function UpdateRecord(id: int, patch: ExpensePatch): (r: Result<ExpenseUpdateRecord>)
    ensures r.Failure? <==> UpdateError(patch).Some?
    ensures r.Failure? ==> r.message == UpdateError(patch).value
    ensures r.Success? ==>
              && r.value.id == id
              && r.value.name == r.value.description
              && (forall d :: r.value.description == Some(d) <==>
                               patch.description.Some? && d == Trim(patch.description.value))
              && (forall a :: r.value.amount == Some(a) <==> patch.amount == Some(Finite(a)))
              && (forall c :: r.value.category == Some(c) <==> patch.category == Some(c) && c != "")
              && (forall c :: r.value.category == Some(c) ==> c in Categories)
              && (forall d :: r.value.date == Some(d) <==> patch.date == Some(d) && d != "")
              && (forall e :: r.value.eventId == Some(e) <==> patch.eventId == Some(e) && e != 0)
  {
    match UpdateError(patch)
    case Some(message) => Failure(message)
    case None =>
      // A description that passed the check is not blank, hence truthy.
      var text := if patch.description.Some? && patch.description.value != "" then Some(Trim(patch.description.value)) else None;
      Success(ExpenseUpdateRecord(
        id, text, text,
        if patch.amount.Some? && patch.amount.value.Truthy() then Some(patch.amount.value.value) else None,
        if patch.category.Some? && patch.category.value != "" then patch.category else None,
        if patch.date.Some? && patch.date.value != "" then patch.date else None,
        if patch.eventId.Some? && patch.eventId.value != 0 then patch.eventId else None))
  }

  /** `getByEventId` over the store's answer (the store filters by event id):
      its records, or no records at all when the fetch failed or threw. */
  function ExpensesOfEvent(resp: Fetched<Expense>): (r: seq<Expense>)
    ensures !(resp.Fetched? && resp.success) ==> r == []
    ensures resp.Fetched? && resp.success && resp.data.None? ==> r == []
    ensures resp.Fetched? && resp.success && resp.data.Some? ==> r == resp.data.value
  {
    if resp.Fetched? && resp.success then resp.data.GetOr([]) else []
  }

  /** `expense.amount || 0` */
  function AmountOf(e: Expense): real {
    e.amount.GetOr(0.0)
  }

  /** The `reduce` of `getTotalByEventId`: amounts added left to right, a
      missing amount counting as 0. */
  function Total(s: seq<Expense>): (t: real)
    ensures s == [] ==> t == 0.0
    ensures (forall i :: 0 <= i < |s| ==> AmountOf(s[i]) >= 0.0) ==> t >= 0.0
  {
    if s == [] then 0.0 else Total(s[..|s| - 1]) + AmountOf(s[|s| - 1])
  }

  lemma TotalSnoc(s: seq<Expense>, e: Expense)
    ensures Total(s + [e]) == Total(s) + AmountOf(e)
  {
    assert (s + [e])[..|s|] == s;
  }

  /** The total of a concatenation is the sum of the totals. */
  lemma {:induction false} TotalConcat(a: seq<Expense>, b: seq<Expense>)
    ensures Total(a + b) == Total(a) + Total(b)
  {
    if b != [] {
      var init := b[..|b| - 1];
      TotalConcat(a, init);
      assert a + b == (a + init) + [b[|b| - 1]];
      TotalSnoc(a + init, b[|b| - 1]);
    } else {
      assert a + b == a;
    }
  }

  /** `getTotalByEventId`: the total of the event's expenses, 0 when it has
      none and when the fetch failed. */
  function GetTotalByEventId(resp: Fetched<Expense>): (t: real)
    ensures !(resp.Fetched? && resp.success) ==> t == 0.0
    ensures t == Total(ExpensesOfEvent(resp))
  {
    Total(ExpensesOfEvent(resp))
  }

  function InCategory(c: string): Expense -> bool {
    (e: Expense) => e.category == Some(c)
  }

  function HasKnownCategory(e: Expense): bool {
    e.category.Some? && e.category.value in Categories
  }

  /** `getExpensesByCategory`: the six category keys and no other, each the
      total of the event's expenses in that category; expenses with a
      missing or unknown category are counted nowhere. */
  method ExpensesByCategory(resp: Fetched<Expense>) returns (totals: map<string, real>)
    ensures forall c :: c in totals <==> c in Categories
    ensures forall c :: c in totals ==> totals[c] == Total(Filter(ExpensesOfEvent(resp), InCategory(c)))
    ensures SumOver(Categories, totals) == Total(Filter(ExpensesOfEvent(resp), HasKnownCategory))
  {
    var expenses := ExpensesOfEvent(resp);
    totals := map[];
    var i := 0;
    while i < |Categories|
      invariant 0 <= i <= |Categories|
      invariant forall c :: c in totals <==> c in Categories[..i]
      invariant forall c :: c in totals ==> totals[c] == 0.0
    {
      totals := totals[Categories[i] := 0.0];
      i := i + 1;
    }
    assert Categories[..i] == Categories;
    NoEmptyCategory();
    ghost var keys := totals.Keys;
    ghost var seen: seq<Expense> := [];
    var j := 0;
    while j < |expenses|
      invariant 0 <= j <= |expenses| && seen == expenses[..j]
      invariant totals.Keys == keys
      invariant TotalsOf(totals, seen)
    {
      var e := expenses[j];
      AddExpense(totals, seen, e);
      if e.category.Some? && e.category.value != "" && e.category.value in totals {
        totals := totals[e.category.value := totals[e.category.value] + AmountOf(e)];
      }
      seen := seen + [e];
      j := j + 1;
    }
    assert seen == expenses;
    forall c | c in totals
      ensures totals[c] == Total(Filter(expenses, InCategory(c)))
    {
      CategoryTotalIsFilteredTotal(expenses, c);
    }
    SumOverTotals(Categories, totals, expenses);
    CategoryTotalsSumToKnownTotal(expenses);
  }

  /** The values of `totals` under the keys `cats`, added left to right. */
  function SumOver(cats: seq<string>, totals: map<string, real>): real
    requires forall c :: c in cats ==> c in totals
  {
    if cats == [] then 0.0
    else SumOver(cats[..|cats| - 1], totals) + totals[cats[|cats| - 1]]
  }

  /** A map holding each category's running total sums to the category sum. */
  lemma {:induction false} SumOverTotals(cats: seq<string>, totals: map<string, real>, s: seq<Expense>)
    requires forall c :: c in cats ==> c in totals && totals[c] == CategoryTotal(s, c)
    ensures SumOver(cats, totals) == CategorySum(cats, s)
  {
    if cats != [] {
      SumOverTotals(cats[..|cats| - 1], totals, s);
    }
  }

  /** The amounts of the expenses of `s` in category `c`, added left to right:
      what the key `c` holds once the second loop has seen `s`. */
  function CategoryTotal(s: seq<Expense>, c: string): real {
    if s == [] then 0.0
    else CategoryTotal(s[..|s| - 1], c) + (if s[|s| - 1].category == Some(c) then AmountOf(s[|s| - 1]) else 0.0)
  }

  /** Adding up one category as the loop goes is totalling that category's
      expenses. */
  lemma {:induction false} CategoryTotalIsFilteredTotal(s: seq<Expense>, c: string)
    ensures CategoryTotal(s, c) == Total(Filter(s, InCategory(c)))
  {
    if s != [] {
      var init, last := s[..|s| - 1], s[|s| - 1];
      var f := Filter(init, InCategory(c));
      assert Filter(s, InCategory(c)) == f + (if last.category == Some(c) then [last] else []) by {
        assert s == init + [last];
        FilterSnoc(init, last, InCategory(c));
      }
      CategoryTotalIsFilteredTotal(init, c);
      if last.category == Some(c) {
        TotalSnoc(f, last);
      } else {
        assert f + [] == f;
      }
    }
  }

  /** One more expense adds its amount to its own category only. */
  lemma CategoryTotalSnoc(s: seq<Expense>, e: Expense, c: string)
    ensures CategoryTotal(s + [e], c) == CategoryTotal(s, c) + (if e.category == Some(c) then AmountOf(e) else 0.0)
  {
    assert (s + [e])[..|s|] == s;
  }

  /** Each key of `totals` holds the sum of the amounts in its category over the
      expenses `s`. */
  ghost predicate TotalsOf(totals: map<string, real>, s: seq<Expense>) {
    forall c :: c in totals ==> totals[c] == CategoryTotal(s, c)
  }

  /** No category is the empty text, so the loop's truthiness test never
      skips a category key. */
  lemma NoEmptyCategory()
    ensures "" !in Categories
  {
    assert forall k :: 0 <= k < |Categories| ==> |Categories[k]| > 0;
  }

  /** One pass of the second loop of `getExpensesByCategory`: adding the
      expense `e` to the totals of the expenses `s` seen so far. */
  lemma AddExpense(totals: map<string, real>, s: seq<Expense>, e: Expense)
    requires "" !in totals && TotalsOf(totals, s)
    ensures e.category.Some? && e.category.value != "" && e.category.value in totals ==>
              TotalsOf(totals[e.category.value := totals[e.category.value] + AmountOf(e)], s + [e])
    ensures !(e.category.Some? && e.category.value != "" && e.category.value in totals) ==>
              TotalsOf(totals, s + [e])
  {
    forall c | c in totals
      ensures CategoryTotal(s + [e], c) == CategoryTotal(s, c) + (if e.category == Some(c) then AmountOf(e) else 0.0)
    {
      CategoryTotalSnoc(s, e, c);
    }
  }

  /** The per-category totals summed over a list of categories. */
  function CategorySum(cats: seq<string>, s: seq<Expense>): real {
    if cats == [] then 0.0
    else CategorySum(cats[..|cats| - 1], s) + CategoryTotal(s, cats[|cats| - 1])
  }

  /** One more expense adds its amount to the category sum exactly when its
      category is one of the (distinct) categories summed over. */
  lemma {:induction false} CategorySumSnoc(cats: seq<string>, s: seq<Expense>, e: Expense)
    requires forall i, j :: 0 <= i < j < |cats| ==> cats[i] != cats[j]
    ensures CategorySum(cats, s + [e]) ==
            CategorySum(cats, s) + (if e.category.Some? && e.category.value in cats then AmountOf(e) else 0.0)
  {
    if cats != [] {
      var init, last := cats[..|cats| - 1], cats[|cats| - 1];
      assert cats == init + [last];
      CategorySumSnoc(init, s, e);
      CategoryTotalSnoc(s, e, last);
      assert e.category == Some(last) ==> last !in init;
    }
  }

  /** The category totals add up to the total of the expenses whose category
      is one of the six, not to the total of all the event's expenses. */
  lemma {:induction false} CategoryTotalsSumToKnownTotal(s: seq<Expense>)
    ensures CategorySum(Categories, s) == Total(Filter(s, HasKnownCategory))
  {
    if s != [] {
      var init, last := s[..|s| - 1], s[|s| - 1];
      assert s == init + [last];
      CategoryTotalsSumToKnownTotal(init);
      CategoriesDistinct();
      CategorySumSnoc(Categories, init, last);
      FilterSnoc(init, last, HasKnownCategory);
      TotalSnoc(Filter(init, HasKnownCategory), last);
    } else {
      CategorySumOfNone(Categories);
    }
  }

  lemma {:induction false} CategorySumOfNone(cats: seq<string>)
    ensures CategorySum(cats, []) == 0.0
  {
    if cats != [] {
      CategorySumOfNone(cats[..|cats| - 1]);
    }
  }

  /** Only when every expense has one of the six categories do the category
      totals add up to `getTotalByEventId`. */
  lemma {:induction false} CategoryTotalsSumToTotal(s: seq<Expense>)
    requires forall i :: 0 <= i < |s| ==> HasKnownCategory(s[i])
    ensures CategorySum(Categories, s) == Total(s)
  {
    CategoryTotalsSumToKnownTotal(s);
    FilterKeepsAll(s, HasKnownCategory);
  }
}
