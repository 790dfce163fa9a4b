/**
 * The vendors page: booked and pending vendors, the contract total of the
 * booked ones, and the grouping by category.
 */
module Vendors {
  import opened Wrappers
  import opened Seqs
  import opened Grouping
  import opened Schema

  /** `vendor.isBooked` as a condition: only a stored `true` counts. */
  predicate IsBooked(v: Vendor)
  {
    v.fields.isBooked == Some(true)
  }

  predicate IsUnbooked(v: Vendor)
  {
    !IsBooked(v)
  }

  function BookedVendors(vendors: seq<Vendor>): seq<Vendor>
  {
    Filter(vendors, IsBooked)
  }

  function UnbookedVendors(vendors: seq<Vendor>): seq<Vendor>
  {
    Filter(vendors, IsUnbooked)
  }

  /**
   * Booked and pending vendors split the list: each vendor is in exactly one
   * of them, both keep the list order, and the two counts add up to the total.
   */
  lemma BookedPartition(vendors: seq<Vendor>)
    ensures multiset(BookedVendors(vendors)) + multiset(UnbookedVendors(vendors)) == multiset(vendors)
    ensures |BookedVendors(vendors)| + |UnbookedVendors(vendors)| == |vendors|
    ensures IsSubsequence(BookedVendors(vendors), vendors) && IsSubsequence(UnbookedVendors(vendors), vendors)
  {
    FilterPartition(vendors, IsBooked, IsUnbooked);
  }

  /** A vendor's contract amount, with a missing one counting as 0. */
  function ContractValue(v: Vendor): Money
  {
    v.fields.contractAmount.GetOr(0)
  }

  /** What a vendor adds to the contract total: its amount when booked, else nothing. */
  function BookedContractValue(v: Vendor): Money
  {
    if IsBooked(v) then ContractValue(v) else 0
  }

  /** `totalContractAmount`: the contract amounts of the booked vendors. */
  function TotalContractAmount(vendors: seq<Vendor>): (r: Money)
    ensures (forall i :: 0 <= i < |vendors| ==> vendors[i].fields.contractAmount.GetOr(0) >= 0) ==> r >= 0
    ensures (forall i :: 0 <= i < |vendors| ==> !IsBooked(vendors[i])) ==> r == 0
  {
    BookedSum(vendors);
    SumNonNegative(vendors, BookedContractValue);
    SumOfZeros(vendors, BookedContractValue);
    Sum(BookedVendors(vendors), ContractValue)
  }

  /** Summing over the booked vendors is summing the booked amount over all of them. */
  lemma {:induction false} BookedSum(vendors: seq<Vendor>)
    ensures Sum(BookedVendors(vendors), ContractValue) == Sum(vendors, BookedContractValue)
  {
    if vendors != [] {
      BookedSum(vendors[1..]);
    }
  }

  /** Only booked vendors contribute: the total is the sum over all vendors of their booked amount. */
  lemma TotalContractAmountCountsBooked(vendors: seq<Vendor>)
    ensures TotalContractAmount(vendors) == Sum(vendors, BookedContractValue)
  {
    BookedSum(vendors);
  }

  function VendorCategory(v: Vendor): string
  {
    v.fields.category
  }

  /** `categorizedVendors`: the vendors grouped by category, categories in order of first appearance; `ok` is false when a category is an inherited name and the page throws. */
  method CategorizeVendors(vendors: seq<Vendor>) returns (ok: bool, categories: seq<string>, groups: map<string, seq<Vendor>>)
    ensures ok <==> Groupable(vendors, VendorCategory)
    ensures ok ==> categories == Categories(vendors, VendorCategory)
    ensures ok ==> forall c :: c in groups <==> c in categories
    ensures ok ==> forall c :: c in groups ==> groups[c] == Members(vendors, VendorCategory, c)
  {
    ok, categories, groups := GroupBy(vendors, VendorCategory);
  }

  function One(v: Vendor): int
  {
    1
  }

  lemma {:induction false} SumOfOnes(vendors: seq<Vendor>)
    ensures Sum(vendors, One) == |vendors|
  {
    if vendors != [] {
      SumOfOnes(vendors[1..]);
    }
  }

  /** Each vendor lands in exactly one category group: the group sizes add up to the list. */
  lemma CategoryGroupsCoverVendors(vendors: seq<Vendor>)
    ensures SumOfGroups(Categories(vendors, VendorCategory), vendors, VendorCategory, One) == |vendors|
  {
    GroupTotals(vendors, VendorCategory, One);
    SumOfOnes(vendors);
  }
}
