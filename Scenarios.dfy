/**
 * Client-side consequences of the store's contracts: short runs of handlers
 * whose outcome follows from the specifications alone.
 */
module Scenarios {
  import opened Inventory
  import opened Views
  import opened StateStore

  const NothingStored := Snapshot(None, None, None, None, None, None)

  /**
   * First run: the first login sets the password; after logging out a wrong
   * candidate is rejected and the right one logs in again.
   */
  method FirstRunLogin() returns (first: LoginOutcome, second: LoginOutcome, third: LoginOutcome)
    ensures first == PasswordCreated && second == Rejected && third == LoggedIn
  {
    var s := new Store(NothingStored, false);
    first := s.Login("abc");
    assert s.password == Some("abc") && s.isLoggedIn;
    s.Logout();
    second := s.Login("xyz");
    assert !s.isLoggedIn;
    third := s.Login("abc");
    assert s.isLoggedIn;
  }

  /** Exporting and then importing the document puts back every field as it was before the export. */
  method ExportThenImport(s: Store, at: Clock) returns (ok: bool)
    modifies s
    ensures ok
    ensures s.products == old(s.products) && s.categories == old(s.categories) && s.logs == old(s.logs)
    ensures s.profile == old(s.profile) && s.settings == old(s.settings) && s.password == old(s.password)
    ensures s.isLoggedIn == old(s.isLoggedIn) && s.selected == old(s.selected)
  {
    var doc := s.ExportData(at);
    ok := s.ImportData(doc);
  }

  /** Deleting a selected product leaves its id in the selection. */
  method DeletedProductStaysSelected(at: Clock) returns (stale: bool)
    ensures stale
  {
    var s := new Store(NothingStored, true);
    var id := s.SubmitProduct(AddMode, None, "1", "Pen", "Acme", "Stationery", "SKU1", 5, "10", at);
    s.ToggleItemSelection(id, true);
    s.DeleteProduct(id);
    assert s.products == [];
    stale := "1" in s.selected;
  }

  /**
   * A category cannot be added twice, cannot be deleted while a product uses it,
   * and can be deleted once that product is gone.
   */
  method CategoryLifecycle(at: Clock) returns (again: bool, whileUsed: bool, afterwards: bool)
    ensures !again && !whileUsed && afterwards
  {
    var s := new Store(NothingStored, true);
    var added := s.SubmitCategory("Food", at);
    assert s.categories == DefaultCategories + ["Food"];
    again := s.SubmitCategory("Food", at);
    var id := s.SubmitProduct(AddMode, None, "7", "Rice", "", "Food", "SKU7", 3, "2.5", at);
    assert s.products[0].category == "Food";
    whileUsed := s.DeleteCategory("Food");
    s.DeleteProduct(id);
    assert s.products == [];
    afterwards := s.DeleteCategory("Food");
  }

  /**
   * The add path takes the form's editing id whenever it is non-empty, so an
   * add submitted while an earlier edit's id is still on the form files a
   * second product under that id.
   */
  method AddWithLeftoverEditingId(at: Clock) returns (count: nat, sameId: bool)
    ensures count == 2 && sameId
  {
    var s := new Store(NothingStored, true);
    var first := s.SubmitProduct(AddMode, None, "1", "Pen", "Acme", "Stationery", "SKU1", 5, "10", at);
    var edited := s.SubmitProduct(EditMode, Some("1"), "2", "Pen", "Acme", "Stationery", "SKU1", 6, "10", at);
    var second := s.SubmitProduct(AddMode, Some("1"), "3", "Ink", "Acme", "Stationery", "SKU2", 9, "4", at);
    count := |s.products|;
    sameId := s.products[0].id == s.products[1].id;
  }

  /** One product with stock 5 against the default threshold 10 is reported low. */
  lemma OneLowProduct()
    ensures |LowStockItems([Product("1", "Pen", None, "Stationery", "SKU1", 5, "10")], DefaultSettings.lowStockThreshold)| == 1
  {
    var ps := [Product("1", "Pen", None, "Stationery", "SKU1", 5, "10")];
    assert ps == [ps[0]] + [];
  }
}
