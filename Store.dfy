/**
 * The application's in-memory state and the handlers that change it, with
 * rendering, storage writes and dialogs stripped away. Every form value,
 * clock reading and generated id is a parameter.
 */
module StateStore {
  import opened Seqs
  import opened Inventory
  import opened Views

  /** The product form's mode: adding a new product or editing an existing one. */
  datatype FormMode = AddMode | EditMode

  /** The three branches of the login form. */
  datatype LoginOutcome = PasswordCreated | LoggedIn | Rejected

  class Store {
    var products: seq<Product>
    var categories: seq<string>
    var logs: seq<LogEntry>
    var profile: Profile
    var settings: Settings
    var password: Option<string>
    var isLoggedIn: bool
    /** Ids ticked for bulk printing, in the order they were ticked. */
    var selected: seq<string>

    /**
     * What the handlers keep true: product ids are unique, category names are
     * distinct, the log respects its bound and the selection has no repeats.
     * It is NOT claimed that every selected id names a product: deleting a
     * product leaves its id selected.
     */
    ghost predicate Consistent()
      reads this
    {
      UniqueIds(products) && NoDuplicates(categories) && |logs| <= MaxLogs && NoDuplicates(selected)
    }

    /** A master password is set (a missing or empty password counts as unset). */
    predicate HasPassword()
      reads this
    {
      Truthy(password)
    }

    /**
     * The state at start-up from what storage holds: each missing part takes its
     * default, the password only if non-empty, the session flag from the session.
     */
    constructor (stored: Snapshot, sessionLoggedIn: bool)
      ensures products == (if stored.products.Some? then stored.products.value else [])
      ensures categories == (if stored.categories.Some? then stored.categories.value else DefaultCategories)
      ensures logs == (if stored.logs.Some? then stored.logs.value else [])
      ensures profile == (if stored.profile.Some? then stored.profile.value else DefaultProfile)
      ensures settings == (if stored.settings.Some? then stored.settings.value else DefaultSettings)
      ensures password == (if Truthy(stored.password) then stored.password else None)
      ensures isLoggedIn == sessionLoggedIn
      ensures selected == []
      ensures ((stored.products.None? || UniqueIds(stored.products.value)) &&
               (stored.categories.None? || NoDuplicates(stored.categories.value)) &&
               (stored.logs.None? || |stored.logs.value| <= MaxLogs))
              ==> Consistent()
    {
      products := if stored.products.Some? then stored.products.value else [];
      categories := if stored.categories.Some? then stored.categories.value else DefaultCategories;
      logs := if stored.logs.Some? then stored.logs.value else [];
      profile := if stored.profile.Some? then stored.profile.value else DefaultProfile;
      settings := if stored.settings.Some? then stored.settings.value else DefaultSettings;
      password := if Truthy(stored.password) then stored.password else None;
      isLoggedIn := sessionLoggedIn;
      selected := [];
    }

    /** Record an activity: the entry goes in front; past MaxLogs the oldest is dropped. */
    method AddLog(logType: LogType, action: string, details: string, at: Clock)
      modifies this`logs
      ensures logs == LogPush(old(logs), MakeEntry(logType, action, details, at))
      ensures |old(logs)| <= MaxLogs ==> |logs| <= MaxLogs
      ensures old(Consistent()) ==> Consistent()
    {
      logs := [MakeEntry(logType, action, details, at)] + logs;
      if |logs| > MaxLogs {
        logs := logs[..|logs| - 1];
      }
    }

    /**
     * Submit the product form. The id is the form's editing id if it has a
     * non-empty one, otherwise `freshId`. Editing replaces the first product with
     * that id; when there is none the list is left as it is (in app.js the
     * assignment to index -1 creates no array element). Adding appends.
     */
    method SubmitProduct(mode: FormMode, editingId: Option<string>, freshId: string,
                         name: string, brand: string, category: string, barcode: string,
                         stock: int, price: string, at: Clock) returns (id: string)
      modifies this`products, this`logs
      ensures id == if Truthy(editingId) then editingId.value else freshId
      ensures var p := Product(id, name, Some(brand), category, barcode, stock, price);
              var i := FindIndex(old(products), id);
              if mode == AddMode then products == old(products) + [p]
              else if i >= 0 then products == old(products)[i := p]
              else products == old(products)
      ensures mode == EditMode ==>
              |products| == |old(products)| &&
              forall k :: 0 <= k < |products| && k != FindIndex(old(products), id) ==> products[k] == old(products)[k]
      ensures mode == AddMode ==>
              |products| == |old(products)| + 1 && products[..|old(products)|] == old(products)
      ensures logs == LogPush(old(logs), MakeEntry(ProductEvent,
                                                   if mode == EditMode then "Updated Product" else "Added Product",
                                                   name, at))
      ensures old(Consistent()) && (mode == EditMode || id !in Ids(old(products))) ==> Consistent()
    {
      id := if Truthy(editingId) then editingId.value else freshId;
      var p := Product(id, name, Some(brand), category, barcode, stock, price);
      if mode == EditMode {
        var i := FindIndex(products, id);
        if i >= 0 {
          IdsReplace(products, i, p);
          products := products[i := p];
        }
        AddLog(ProductEvent, "Updated Product", name, at);
      } else {
        IdsAppend(products, p);
        if UniqueIds(products) && id !in Ids(products) {
          SnocNoDuplicates(Ids(products), id);
        }
        products := products + [p];
        AddLog(ProductEvent, "Added Product", name, at);
      }
    }

    /** Delete (after confirmation) every product with this id. The selection is left alone. */
    method DeleteProduct(id: string)
      modifies this`products
      ensures products == WithoutProduct(old(products), id)
      ensures forall p :: p in products <==> p in old(products) && p.id != id
      ensures IsSubsequence(products, old(products))
      ensures selected == old(selected)
      ensures old(Consistent()) ==> Consistent()
    {
      if UniqueIds(products) {
        WithoutProductUniqueIds(products, id);
      }
      products := WithoutProduct(products, id);
    }

    /** Submit the category form: a name already present (exact match) is refused. */
    method SubmitCategory(name: string, at: Clock) returns (added: bool)
      modifies this`categories, this`logs
      ensures added <==> name !in old(categories)
      ensures !added ==> categories == old(categories) && logs == old(logs)
      ensures added ==> categories == old(categories) + [name] &&
                        logs == LogPush(old(logs), MakeEntry(CategoryEvent, "Added Category", name, at))
      ensures old(Consistent()) ==> Consistent()
    {
      if name in categories {
        return false;
      }
      if NoDuplicates(categories) {
        SnocNoDuplicates(categories, name);
      }
      categories := categories + [name];
      AddLog(CategoryEvent, "Added Category", name, at);
      added := true;
    }

    /** Delete a category, refused while some product is filed under it. */
    method DeleteCategory(name: string) returns (removed: bool)
      modifies this`categories
      ensures removed <==> !InUse(products, name)
      ensures removed ==> categories == Without(old(categories), name)
      ensures removed ==> forall c :: c in categories <==> c in old(categories) && c != name
      ensures removed ==> IsSubsequence(categories, old(categories))
      ensures removed && NoDuplicates(old(categories)) && name in old(categories) ==>
                |categories| == |old(categories)| - 1
      ensures !removed ==> categories == old(categories)
      ensures old(Consistent()) ==> Consistent()
    {
      if InUse(products, name) {
        return false;
      }
      if NoDuplicates(categories) {
        WithoutNoDuplicates(categories, name);
        if name in categories {
          WithoutDistinctLength(categories, name);
        }
      }
      categories := Without(categories, name);
      removed := true;
    }

    /** The select-all box: ticked selects every product id in collection order, unticked clears. */
    method ToggleSelectAll(checked: bool)
      modifies this`selected
      ensures selected == if checked then Ids(products) else []
      ensures old(Consistent()) ==> Consistent()
    {
      selected := if checked then Ids(products) else [];
    }

    /** One product's box: ticking adds the id unless present, unticking removes every occurrence. */
    method ToggleItemSelection(id: string, checked: bool)
      modifies this`selected
      ensures checked ==> selected == if id in old(selected) then old(selected) else old(selected) + [id]
      ensures !checked ==> selected == Without(old(selected), id)
      ensures id in selected <==> checked
      ensures forall s :: s != id ==> (s in selected <==> s in old(selected))
      ensures NoDuplicates(old(selected)) ==> NoDuplicates(selected)
      ensures old(Consistent()) ==> Consistent()
    {
      if checked {
        if id !in selected {
          if NoDuplicates(selected) {
            SnocNoDuplicates(selected, id);
          }
          selected := selected + [id];
        }
      } else {
        if NoDuplicates(selected) {
          WithoutNoDuplicates(selected, id);
        }
        selected := Without(selected, id);
      }
    }

    /**
     * Submit the login form. With no password set the candidate becomes the
     * password and the session logs in; otherwise an exact match logs in and
     * anything else changes nothing.
     */
    method Login(candidate: string) returns (outcome: LoginOutcome)
      modifies this`password, this`isLoggedIn
      ensures !old(HasPassword()) ==> outcome == PasswordCreated && password == Some(candidate) && isLoggedIn
      ensures old(HasPassword()) && candidate == old(password).value ==>
                outcome == LoggedIn && password == old(password) && isLoggedIn
      ensures old(HasPassword()) && candidate != old(password).value ==>
                outcome == Rejected && password == old(password) && isLoggedIn == old(isLoggedIn)
      ensures old(Consistent()) ==> Consistent()
    {
      if !HasPassword() {
        password := Some(candidate);
        isLoggedIn := true;
        outcome := PasswordCreated;
      } else if candidate == password.value {
        isLoggedIn := true;
        outcome := LoggedIn;
      } else {
        outcome := Rejected;
      }
    }

    /** Log out: only the session flag changes; the password stays. */
    method Logout()
      modifies this`isLoggedIn
      ensures !isLoggedIn
      ensures password == old(password)
      ensures old(Consistent()) ==> Consistent()
    {
      isLoggedIn := false;
    }

    /**
     * Save the settings page: profile and settings are replaced wholesale; a
     * non-empty new password replaces the old one and is logged first.
     */
    method SaveSettings(companyName: string, imageSource: string, currency: string,
                        threshold: int, newPassword: string, at: Clock)
      modifies this`profile, this`settings, this`password, this`logs
      ensures profile == Profile(companyName, Some(imageSource))
      ensures settings == Settings(currency, threshold)
      ensures password == if newPassword != "" then Some(newPassword) else old(password)
      ensures var saved := MakeEntry(SystemEvent, "Updated Settings", "Global configuration changed", at);
              var secured := MakeEntry(SystemEvent, "Updated Security", "Master password changed", at);
              logs == if newPassword != "" then LogPush(LogPush(old(logs), secured), saved)
                      else LogPush(old(logs), saved)
      ensures old(Consistent()) ==> Consistent()
    {
      profile := Profile(companyName, Some(imageSource));
      settings := Settings(currency, threshold);
      if newPassword != "" {
        password := Some(newPassword);
        AddLog(SystemEvent, "Updated Security", "Master password changed", at);
      }
      AddLog(SystemEvent, "Updated Settings", "Global configuration changed", at);
    }

    /** The backup document: every part of the persisted state, password included. */
    function Export(): (doc: Snapshot)
      reads this
      ensures doc.products.Some? && doc.categories.Some? && doc.logs.Some?
      ensures doc.profile.Some? && doc.settings.Some?
      ensures doc.password == password
    {
      Snapshot(Some(products), Some(categories), Some(logs), Some(profile), Some(settings), password)
    }

    /** Export a backup; the export itself is logged after the document is taken. */
    method ExportData(at: Clock) returns (doc: Snapshot)
      modifies this`logs
      ensures doc == old(Export())
      ensures logs == LogPush(old(logs), MakeEntry(SystemEvent, "Exported Data", "Created full backup for demo", at))
      ensures old(Consistent()) ==> Consistent()
    {
      doc := Export();
      AddLog(SystemEvent, "Exported Data", "Created full backup for demo", at);
    }

    /**
     * Restore a backup. A document without products or categories is refused
     * and nothing changes. Otherwise both are replaced, the logs become the
     * document's or empty, and profile, settings and a non-empty password are
     * taken from the document where present and kept otherwise.
     */
    method ImportData(doc: Snapshot) returns (ok: bool)
      modifies this`products, this`categories, this`logs, this`profile, this`settings, this`password
      ensures ok <==> doc.products.Some? && doc.categories.Some?
      ensures !ok ==> products == old(products) && categories == old(categories) && logs == old(logs) &&
                      profile == old(profile) && settings == old(settings) && password == old(password)
      ensures ok ==> products == doc.products.value && categories == doc.categories.value
      ensures ok ==> logs == if doc.logs.Some? then doc.logs.value else []
      ensures ok ==> profile == if doc.profile.Some? then doc.profile.value else old(profile)
      ensures ok ==> settings == if doc.settings.Some? then doc.settings.value else old(settings)
      ensures ok ==> password == if Truthy(doc.password) then doc.password else old(password)
      ensures isLoggedIn == old(isLoggedIn) && selected == old(selected)
      ensures (ok && UniqueIds(doc.products.value) && NoDuplicates(doc.categories.value) &&
               (doc.logs.None? || |doc.logs.value| <= MaxLogs) && old(NoDuplicates(selected)))
              ==> Consistent()
      ensures !ok ==> (old(Consistent()) ==> Consistent())
    {
      if doc.products.None? || doc.categories.None? {
        return false;
      }
      products := doc.products.value;
      categories := doc.categories.value;
      logs := if doc.logs.Some? then doc.logs.value else [];
      profile := if doc.profile.Some? then doc.profile.value else profile;
      settings := if doc.settings.Some? then doc.settings.value else settings;
      password := if Truthy(doc.password) then doc.password else password;
      ok := true;
    }
  }
}
