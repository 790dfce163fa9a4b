/**
 * The budget page: the totals, the spent percentage with its bar and
 * warning, the grouping by category with per-category totals, and the
 * over/within label of each item.
 */
module Budget {
  import opened Wrappers
  import opened Seqs
  import opened Grouping
  import opened Schema

  function BudgetAmount(item: BudgetItem): Money
  {
    item.fields.budgetAmount
  }

  /** An item's spent amount, with a missing one counting as 0. */
  function SpentAmount(item: BudgetItem): Money
  {
    item.fields.actualAmount.GetOr(0)
  }

  /** `totalBudget`: the sum of the planned amounts. */
  function TotalBudget(items: seq<BudgetItem>): (r: Money)
    ensures (forall i :: 0 <= i < |items| ==> items[i].fields.budgetAmount >= 0) ==> r >= 0
  {
    SumNonNegative(items, BudgetAmount);
    Sum(items, BudgetAmount)
  }

  /**
   * `totalSpent` as written: `parseFloat(item.actualAmount)` of a missing
   * amount is NaN, and one NaN makes the whole sum NaN (None here).
   */
  function SpentAsWritten(items: seq<BudgetItem>): (r: Option<Money>)
    ensures r.None? <==> exists i :: 0 <= i < |items| && items[i].fields.actualAmount.None?
  {
    assert forall i :: 0 < i < |items| ==> items[i] == items[1..][i - 1];
    if items == [] then Some(0)
    else match (items[0].fields.actualAmount, SpentAsWritten(items[1..]))
      case (Some(a), Some(rest)) => Some(a + rest)
      case _ => None
  }

  /** `totalSpent` with a missing amount counting as 0, as the vendor page's contract total does. */
  function TotalSpent(items: seq<BudgetItem>): (r: Money)
    ensures (forall i :: 0 <= i < |items| ==> items[i].fields.actualAmount.GetOr(0) >= 0) ==> r >= 0
    ensures (forall i :: 0 <= i < |items| ==> items[i].fields.actualAmount.None?) ==> r == 0
  {
    SumNonNegative(items, SpentAmount);
    SumOfZeros(items, SpentAmount);
    Sum(items, SpentAmount)
  }

  /**
   * The sum as written is defined exactly when every item has an actual
   * amount, and then it agrees with `TotalSpent`.
   */
  lemma {:induction false} SpentAsWrittenAgrees(items: seq<BudgetItem>)
    ensures SpentAsWritten(items).Some? <==> forall i :: 0 <= i < |items| ==> items[i].fields.actualAmount.Some?
    ensures SpentAsWritten(items).Some? ==> SpentAsWritten(items).value == TotalSpent(items)
  {
    if items != [] {
      SpentAsWrittenAgrees(items[1..]);
      assert forall i :: 0 < i < |items| ==> items[i] == items[1..][i - 1];
    }
  }

  /** One item stored without an actual amount (the store applies no column default) turns the page's total into NaN. */
  lemma SpentAsWrittenNaN()
    ensures var items := [WithId(2, InsertBudgetItem("venue", "Deposit", 500000, None, None, None))];
      SpentAsWritten(items) == None && TotalSpent(items) == 0
  {
  }

  /** `remaining`: negative once spending passes the budget. */
  function Remaining(items: seq<BudgetItem>): (r: Money)
    ensures r < 0 <==> TotalSpent(items) > TotalBudget(items)
  {
    TotalBudget(items) - TotalSpent(items)
  }

  /** A percentage kept exact as the fraction `100 * num / den`, with `den > 0`. */
  datatype Percentage = Percentage(num: int, den: int)

  /** `totalBudget > 0 ? totalSpent / totalBudget * 100 : 0`, neither rounded nor capped. */
  function SpentPercentage(items: seq<BudgetItem>): (p: Percentage)
    ensures p.den > 0
  {
    var total := TotalBudget(items);
    if total > 0 then Percentage(TotalSpent(items), total) else Percentage(0, 1)
  }

  /** The percentage exceeds 100. */
  predicate Exceeds100(p: Percentage)
  {
    p.num > p.den
  }

  /** `Math.min(p, 100)`, the value the progress bar shows. */
  function BarValue(p: Percentage): (r: Percentage)
    requires p.den > 0
    ensures !Exceeds100(r)
    ensures Exceeds100(p) ==> r.num == r.den
    ensures !Exceeds100(p) ==> r == p
  {
    if Exceeds100(p) then Percentage(1, 1) else p
  }

  /**
   * The over-budget warning shows exactly when the spent percentage exceeds
   * 100, which for a positive budget is exactly when more was spent than planned.
   */
  lemma WarningMeansOverspent(items: seq<BudgetItem>)
    ensures TotalBudget(items) > 0 ==> (Exceeds100(SpentPercentage(items)) <==> TotalSpent(items) > TotalBudget(items))
    ensures TotalBudget(items) <= 0 ==> !Exceeds100(SpentPercentage(items))
  {
  }

  /** An item is labelled "Over" when its actual amount is above its planned amount; equal is "Within". */
  predicate IsOverBudget(item: BudgetItem)
  {
    item.fields.actualAmount.Some? && item.fields.actualAmount.value > item.fields.budgetAmount
  }

  /** An item without an actual amount is labelled "Within" (NaN compares false), and so is one on budget. */
  lemma OverBudgetLabel(item: BudgetItem)
    ensures item.fields.actualAmount.None? ==> !IsOverBudget(item)
    ensures item.fields.actualAmount == Some(item.fields.budgetAmount) ==> !IsOverBudget(item)
    ensures IsOverBudget(item) ==> SpentAmount(item) > BudgetAmount(item)
  {
  }

  function ItemCategory(item: BudgetItem): string
  {
    item.fields.category
  }

  /** `categorizedItems`: the items grouped by category, categories in order of first appearance; `ok` is false when a category is an inherited name and the page throws. */
  method CategorizeItems(items: seq<BudgetItem>) returns (ok: bool, categories: seq<string>, groups: map<string, seq<BudgetItem>>)
    ensures ok <==> Groupable(items, ItemCategory)
    ensures ok ==> categories == Categories(items, ItemCategory)
    ensures ok ==> forall c :: c in groups <==> c in categories
    ensures ok ==> forall c :: c in groups ==> groups[c] == Members(items, ItemCategory, c)
  {
    ok, categories, groups := GroupBy(items, ItemCategory);
  }

  /** An item filed under the category "constructor" makes the page's grouping throw. */
  lemma ConstructorCategoryThrows()
    ensures !Groupable([WithId(3, InsertBudgetItem("constructor", "Cake", 40000, None, None, None))], ItemCategory)
  {
    var items := [WithId(3, InsertBudgetItem("constructor", "Cake", 40000, None, None, None))];
    assert Inherited(ItemCategory(items[0]));
  }

  /** The per-category budget and spent totals add up to the page's overall totals. */
  lemma CategoryTotalsAddUp(items: seq<BudgetItem>)
    ensures SumOfGroups(Categories(items, ItemCategory), items, ItemCategory, BudgetAmount) == TotalBudget(items)
    ensures SumOfGroups(Categories(items, ItemCategory), items, ItemCategory, SpentAmount) == TotalSpent(items)
  {
    GroupTotals(items, ItemCategory, BudgetAmount);
    GroupTotals(items, ItemCategory, SpentAmount);
  }
}
