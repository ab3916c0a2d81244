/**
 * The platform-wide settings of routes/settings.js over the setting
 * documents of models/Setting.js: who sees which settings, the create,
 * update and delete guards, the validation rules an update is held to, the
 * bulk update, and which handler Express picks for a request.
 */
module SettingRoutes {
  import opened Common
  import opened Text

  /**
   * The `validation` sub-object. Mongoose always materialises it, and its
   * `options` array defaults to `[]`; the other rules are absent unless set.
   */
  datatype Validation = Validation(min: Option<int>, max: Option<int>, options: seq<int>, pattern: Option<string>)

  const NoValidation := Validation(None, None, [], None)

  /**
   * A stored setting. `value` stands for the value after the route's type
   * coercion, kept as an ordered type.
   */
  datatype Setting = Setting(
    key: string,
    value: int,
    category: string,
    description: Option<string>,
    isPublic: bool,
    isEditable: bool,
    validation: Validation,
    updatedBy: Option<Id>)

  // ---------------------------------------------------------------------
  // Visibility

  /**
   * The filter of `GET /`: a non-admin sees public settings only; an admin
   * may filter on `isPublic` (the query string compared with `'true'`); a
   * truthy `category` narrows either.
   */
  predicate Listed(role: Role, isPublicParam: Option<string>, category: Option<string>, s: Setting)
    ensures Listed(role, isPublicParam, category, s) && role != Admin ==> s.isPublic
    ensures Listed(role, isPublicParam, category, s) && Truthy(category) ==> s.category == category.value
    ensures role == Admin && isPublicParam.None? && !Truthy(category) ==> Listed(role, isPublicParam, category, s)
  {
    (if role != Admin then s.isPublic
     else isPublicParam.None? || s.isPublic == (isPublicParam.value == "true"))
    && (!Truthy(category) || s.category == category.value)
  }

  /** The filter of `GET /category/:category`. */
  predicate ListedInCategory(role: Role, category: string, s: Setting)
    ensures ListedInCategory(role, category, s) ==> s.category == category
    ensures ListedInCategory(role, category, s) && role != Admin ==> s.isPublic
    ensures role == Admin && s.category == category ==> ListedInCategory(role, category, s)
  {
    s.category == category && (role != Admin ==> s.isPublic)
  }

  /** The keys `GET /` returns from a store. */
  function ListKeys(store: map<string, Setting>, role: Role, isPublicParam: Option<string>, category: Option<string>): (ks: set<string>)
    ensures ks <= store.Keys
    ensures forall k :: k in ks <==> k in store && Listed(role, isPublicParam, category, store[k])
  {
    set k | k in store && Listed(role, isPublicParam, category, store[k])
  }

  /** Non-admins are shown public settings only, whatever they put in the query. */
  lemma NonAdminListsPublicOnly(role: Role, isPublicParam: Option<string>, category: Option<string>, s: Setting)
    requires role != Admin
    ensures Listed(role, isPublicParam, category, s) ==> s.isPublic
    ensures ListedInCategory(role, s.category, s) <==> s.isPublic
    ensures Listed(role, isPublicParam, None, s) == Listed(role, None, None, s)
  {
  }

  /** An admin without filters sees every setting. */
  lemma AdminListsEverything(s: Setting)
    ensures Listed(Admin, None, None, s) && ListedInCategory(Admin, s.category, s)
  {
  }

  const SettingNotFound := Response(404, "Setting not found")
  const AccessDenied := Response(403, "Access denied")
  const SettingFound := Response(200, "")

  /** `GET /:key`: a missing key, then a private setting asked for by a non-admin. */
  function GetByKey(store: map<string, Setting>, role: Role, key: string): (r: (Response, Option<Setting>))
    ensures key !in store ==> r == (SettingNotFound, None)
    ensures r.1.Some? <==> key in store && (store[key].isPublic || role == Admin)
    ensures r.1.Some? ==> r.1.value == store[key] && r.0 == SettingFound
    ensures key in store && r.1.None? ==> r.0 == AccessDenied
  {
    if key !in store then (SettingNotFound, None)
    else if !store[key].isPublic && role != Admin then (AccessDenied, None)
    else (SettingFound, Some(store[key]))
  }

  /** What a non-admin can fetch by key is exactly what they can list. */
  lemma FetchAgreesWithListing(store: map<string, Setting>, role: Role, key: string)
    requires role != Admin && key in store
    ensures GetByKey(store, role, key).1.Some? <==> key in ListKeys(store, role, None, None)
  {
  }

  // ---------------------------------------------------------------------
  // Validation rules of PUT /:key

  /** The first rule a value breaks. */
  datatype RuleError = BelowMin(min: int) | AboveMax(max: int) | NotAnOption(options: seq<int>) | PatternMismatch

  /** The `message` of the 400 reply for a broken rule. */
  function RuleMessage(e: RuleError): (m: string)
    ensures e.BelowMin? ==> "Value must be at least " <= m
    ensures e.AboveMax? ==> "Value must be at most " <= m
    ensures e.NotAnOption? ==> "Value must be one of: " <= m
    ensures e.PatternMismatch? ==> m == "Value does not match required pattern"
  {
    match e
    case BelowMin(min) => "Value must be at least " + Decimal(min)
    case AboveMax(max) => "Value must be at most " + Decimal(max)
    case NotAnOption(options) => "Value must be one of: " + Join(seq(|options|, i requires 0 <= i < |options| => Decimal(options[i])), ", ")
    case PatternMismatch => "Value does not match required pattern"
  }

  /**
   * The rules as the handler runs them: `min`, then `max`, then `options`,
   * then `pattern`. `patternHolds` is the outcome of the regular expression
   * test, which is not modelled. As written, `validation.options &&` is
   * always true, since the array is never absent: every setting without
   * options rejects every value.
   */
  function CheckRulesAsWritten(v: Validation, value: int, patternHolds: bool): (r: Option<RuleError>)
    ensures r.None? <==> (v.min.None? || value >= v.min.value) && (v.max.None? || value <= v.max.value)
                         && value in v.options
                         && (v.pattern.None? || v.pattern.value == "" || patternHolds)
    ensures (r.Some? && r.value.BelowMin?) <==> v.min.Some? && value < v.min.value
    ensures (r.Some? && r.value.AboveMax?) <==> (v.min.None? || value >= v.min.value) && v.max.Some? && value > v.max.value
    ensures (r.Some? && r.value.NotAnOption?) <==>
              (v.min.None? || value >= v.min.value) && (v.max.None? || value <= v.max.value) && value !in v.options
    ensures (r.Some? && r.value.PatternMismatch?) <==>
              (v.min.None? || value >= v.min.value) && (v.max.None? || value <= v.max.value) && value in v.options
              && v.pattern.Some? && v.pattern.value != "" && !patternHolds
    ensures v.options == [] ==> r.Some?
  {
    if v.min.Some? && value < v.min.value then Some(BelowMin(v.min.value))
    else if v.max.Some? && value > v.max.value then Some(AboveMax(v.max.value))
    else if value !in v.options then Some(NotAnOption(v.options))
    else if v.pattern.Some? && v.pattern.value != "" && !patternHolds then Some(PatternMismatch)
    else None
  }

  /** The rules with the evidently intended `options` test: they apply only when some options are listed. */
  function CheckRules(v: Validation, value: int, patternHolds: bool): (r: Option<RuleError>)
    ensures r.None? <==> (v.min.None? || value >= v.min.value) && (v.max.None? || value <= v.max.value)
                         && (v.options == [] || value in v.options)
                         && (v.pattern.None? || v.pattern.value == "" || patternHolds)
    ensures (r.Some? && r.value.BelowMin?) <==> v.min.Some? && value < v.min.value
    ensures (r.Some? && r.value.AboveMax?) <==> (v.min.None? || value >= v.min.value) && v.max.Some? && value > v.max.value
    ensures (r.Some? && r.value.NotAnOption?) <==>
              (v.min.None? || value >= v.min.value) && (v.max.None? || value <= v.max.value)
              && v.options != [] && value !in v.options
    ensures (r.Some? && r.value.PatternMismatch?) <==>
              (v.min.None? || value >= v.min.value) && (v.max.None? || value <= v.max.value)
              && (v.options == [] || value in v.options)
              && v.pattern.Some? && v.pattern.value != "" && !patternHolds
    ensures v.options == [] ==> !(r.Some? && r.value.NotAnOption?)
    ensures v == NoValidation ==> r.None?
  {
    if v.min.Some? && value < v.min.value then Some(BelowMin(v.min.value))
    else if v.max.Some? && value > v.max.value then Some(AboveMax(v.max.value))
    else if v.options != [] && value !in v.options then Some(NotAnOption(v.options))
    else if v.pattern.Some? && v.pattern.value != "" && !patternHolds then Some(PatternMismatch)
    else None
  }

  /** As written, a setting with no options listed rejects any value that passes `min` and `max`. */
  lemma EmptyOptionsRejectAsWritten(v: Validation, value: int, patternHolds: bool)
    requires v.options == []
    requires (v.min.None? || value >= v.min.value) && (v.max.None? || value <= v.max.value)
    ensures CheckRulesAsWritten(v, value, patternHolds) == Some(NotAnOption([]))
  {
  }

  /** A setting created without validation: as written, 5 is rejected; corrected, it is accepted. */
  lemma UnvalidatedSettingExample()
    ensures CheckRulesAsWritten(NoValidation, 5, true) == Some(NotAnOption([]))
    ensures CheckRules(NoValidation, 5, true) == None
  {
  }

  /** With options listed, the two readings agree. */
  lemma RulesAgreeWithOptions(v: Validation, value: int, patternHolds: bool)
    requires v.options != []
    ensures CheckRulesAsWritten(v, value, patternHolds) == CheckRules(v, value, patternHolds)
  {
  }

  // ---------------------------------------------------------------------
  // Bulk update

  /** One element of the `settings` array of `PUT /bulk`. */
  datatype BulkItem = BulkItem(key: string, value: int)

  /** One element of `results`. */
  datatype BulkResult = BulkResult(key: string, success: bool, message: string)

  const BulkNotFound := "Setting not found"
  const BulkNotEditable := "Setting is not editable"
  const BulkUpdated := "Updated successfully"

  /** The result an item earns against a store: no validation rules are applied. */
  function Outcome(store: map<string, Setting>, key: string): (r: BulkResult)
    ensures r.key == key
    ensures r.success <==> key in store && store[key].isEditable
    ensures r.message == (if key !in store then BulkNotFound else if !store[key].isEditable then BulkNotEditable else BulkUpdated)
  {
    if key !in store then BulkResult(key, false, BulkNotFound)
    else if !store[key].isEditable then BulkResult(key, false, BulkNotEditable)
    else BulkResult(key, true, BulkUpdated)
  }

  /** The store after one item: an editable setting takes the item's value and the editor. */
  function Apply(store: map<string, Setting>, item: BulkItem, editor: Id): (r: map<string, Setting>)
    ensures r.Keys == store.Keys
    ensures forall k :: k in store && k != item.key ==> r[k] == store[k]
    ensures item.key in store && store[item.key].isEditable ==>
              r[item.key] == store[item.key].(value := item.value, updatedBy := Some(editor))
    ensures item.key in store && !store[item.key].isEditable ==> r == store
  {
    if item.key in store && store[item.key].isEditable
    then store[item.key := store[item.key].(value := item.value, updatedBy := Some(editor))]
    else store
  }

  /**
   * The store after the loop over the items, in order: no key is added or
   * removed, and no setting is made editable or not.
   */
  function BulkStore(store: map<string, Setting>, items: seq<BulkItem>, editor: Id): (r: map<string, Setting>)
    ensures r.Keys == store.Keys
    ensures forall k :: k in store ==> r[k].isEditable == store[k].isEditable
    decreases |items|
  {
    if |items| == 0 then store
    else Apply(BulkStore(store, items[..|items| - 1], editor), items[|items| - 1], editor)
  }

  /**
   * The results of a bulk update: one per item, in order, each the outcome
   * the store as it stood before the whole request predicts for its key.
   */
  function BulkResults(store: map<string, Setting>, items: seq<BulkItem>): (rs: seq<BulkResult>)
    ensures |rs| == |items|
  {
    seq(|items|, i requires 0 <= i < |items| => Outcome(store, items[i].key))
  }

  /** One more item adds its outcome at the end. */
  lemma BulkResultsSnoc(store: map<string, Setting>, items: seq<BulkItem>, i: nat)
    requires i < |items|
    ensures BulkResults(store, items[..i + 1]) == BulkResults(store, items[..i]) + [Outcome(store, items[i].key)]
  {
    var a := BulkResults(store, items[..i + 1]);
    var b := BulkResults(store, items[..i]) + [Outcome(store, items[i].key)];
    assert |a| == |b|;
    forall j | 0 <= j < |a|
      ensures a[j] == b[j]
    {
      assert items[..i + 1][j] == items[j];
    }
  }

  /** One more item applies it to the store so far. */
  lemma BulkStoreSnoc(store: map<string, Setting>, items: seq<BulkItem>, editor: Id, i: nat)
    requires i < |items|
    ensures BulkStore(store, items[..i + 1], editor) == Apply(BulkStore(store, items[..i], editor), items[i], editor)
  {
    assert items[..i + 1][..i] == items[..i];
  }

  /** Stores with the same keys and the same editable flags predict the same outcomes. */
  lemma OutcomeAgrees(a: map<string, Setting>, b: map<string, Setting>, key: string)
    requires a.Keys == b.Keys && forall k :: k in b ==> a[k].isEditable == b[k].isEditable
    ensures Outcome(a, key) == Outcome(b, key)
  {
  }

  /** A setting that is not editable leaves a bulk update as it came. */
  lemma {:induction false} BulkKeepsLocked(store: map<string, Setting>, items: seq<BulkItem>, editor: Id, k: string)
    requires k in store && !store[k].isEditable
    ensures BulkStore(store, items, editor)[k] == store[k]
    decreases |items|
  {
    if |items| > 0 {
      BulkKeepsLocked(store, items[..|items| - 1], editor, k);
    }
  }

  /** A setting no item names is left as it was. */
  lemma {:induction false} BulkKeepsUnnamed(store: map<string, Setting>, items: seq<BulkItem>, editor: Id, k: string)
    requires k in store && forall i :: 0 <= i < |items| ==> items[i].key != k
    ensures BulkStore(store, items, editor)[k] == store[k]
    decreases |items|
  {
    if |items| > 0 {
      BulkKeepsUnnamed(store, items[..|items| - 1], editor, k);
    }
  }

  /**
   * When several items name one editable setting, the last of them, item
   * `j`, decides its value and records the editor, wherever it stands in
   * the request.
   */
  lemma {:induction false} LastItemWins(store: map<string, Setting>, items: seq<BulkItem>, editor: Id, j: nat)
    requires j < |items| && items[j].key in store && store[items[j].key].isEditable
    requires forall i :: j < i < |items| ==> items[i].key != items[j].key
    ensures BulkStore(store, items, editor)[items[j].key].value == items[j].value
    ensures BulkStore(store, items, editor)[items[j].key].updatedBy == Some(editor)
    decreases |items|
  {
    var n := |items| - 1;
    if j < n {
      assert items[..n][j] == items[j];
      LastItemWins(store, items[..n], editor, j);
    }
  }

  /** On an editable setting the bulk path stores a value the single update would refuse. */
  lemma BulkSkipsRules(s: Setting, value: int, editor: Id)
    requires s.isEditable && s.validation.min.Some? && value < s.validation.min.value
    ensures CheckRules(s.validation, value, true).Some?
    ensures BulkStore(map[s.key := s], [BulkItem(s.key, value)], editor)[s.key].value == value
  {
    var items := [BulkItem(s.key, value)];
    assert items[..0] == [];
  }

  // ---------------------------------------------------------------------
  // Express route table

  /** One path segment of a route pattern: a literal, or a `:param`. */
  datatype Segment = Lit(text: string) | Param

  datatype Verb = GET | POST | PUT | DELETE

  /** The handlers of the settings router. */
  datatype Handler = ListAll | GetOne | CreateOne | UpdateOne | DeleteOne | ListCategory | BulkUpdateAll

  datatype RouteEntry = RouteEntry(verb: Verb, pattern: seq<Segment>, handler: Handler)

  /**
   * A request path, split at `/`, matches a pattern of as many segments; a
   * literal matches ignoring case, as Express routers do by default, and a
   * parameter takes any non-empty segment.
   */
  predicate PathMatches(pattern: seq<Segment>, path: seq<string>)
  {
    |pattern| == |path|
    && forall i :: 0 <= i < |path| ==> if pattern[i].Lit? then Lower(path[i]) == Lower(pattern[i].text) else path[i] != ""
  }

  predicate Hit(r: RouteEntry, verb: Verb, path: seq<string>)
  {
    r.verb == verb && PathMatches(r.pattern, path)
  }

  /** Express tries the routes from `from` on, in registration order, and runs the first that matches. */
  function DispatchFrom(routes: seq<RouteEntry>, from: nat, verb: Verb, path: seq<string>): Option<Handler>
    decreases |routes| - from
  {
    if from >= |routes| then None
    else if Hit(routes[from], verb, path) then Some(routes[from].handler)
    else DispatchFrom(routes, from + 1, verb, path)
  }

  function Dispatch(routes: seq<RouteEntry>, verb: Verb, path: seq<string>): Option<Handler>
  {
    DispatchFrom(routes, 0, verb, path)
  }

  /** The first route that matches runs, whatever follows it. */
  lemma {:induction false} FirstMatchWins(routes: seq<RouteEntry>, from: nat, j: nat, verb: Verb, path: seq<string>)
    requires from <= j < |routes| && Hit(routes[j], verb, path)
    requires forall i :: from <= i < j ==> !Hit(routes[i], verb, path)
    ensures DispatchFrom(routes, from, verb, path) == Some(routes[j].handler)
    decreases j - from
  {
    if from < j {
      FirstMatchWins(routes, from + 1, j, verb, path);
    }
  }

  /** With no route matching, no handler runs. */
  lemma {:induction false} NoMatchNoHandler(routes: seq<RouteEntry>, from: nat, verb: Verb, path: seq<string>)
    requires forall i :: from <= i < |routes| ==> !Hit(routes[i], verb, path)
    ensures DispatchFrom(routes, from, verb, path) == None
    decreases |routes| - from
  {
    if from < |routes| {
      NoMatchNoHandler(routes, from + 1, verb, path);
    }
  }

  /** The routes in the order routes/settings.js registers them: `PUT /bulk` after `PUT /:key`. */
  const RoutesAsWritten: seq<RouteEntry> := [
    RouteEntry(GET, [], ListAll),
    RouteEntry(GET, [Param], GetOne),
    RouteEntry(POST, [], CreateOne),
    RouteEntry(PUT, [Param], UpdateOne),
    RouteEntry(DELETE, [Param], DeleteOne),
    RouteEntry(GET, [Lit("category"), Param], ListCategory),
    RouteEntry(PUT, [Lit("bulk")], BulkUpdateAll)]

  /** The evidently intended table: the literal `PUT /bulk` registered before `PUT /:key`. */
  const Routes: seq<RouteEntry> := [
    RouteEntry(GET, [], ListAll),
    RouteEntry(GET, [Param], GetOne),
    RouteEntry(POST, [], CreateOne),
    RouteEntry(PUT, [Lit("bulk")], BulkUpdateAll),
    RouteEntry(PUT, [Param], UpdateOne),
    RouteEntry(DELETE, [Param], DeleteOne),
    RouteEntry(GET, [Lit("category"), Param], ListCategory)]

  /**
   * As written, every request the bulk route matches, `PUT /bulk` among
   * them, reaches the single-setting update first: a bulk body, which has
   * no `value`, fails that route's body validation with a 400, and the bulk
   * handler never runs.
   */
  lemma BulkShadowedAsWritten(path: seq<string>)
    requires Hit(RoutesAsWritten[6], PUT, path)
    ensures Dispatch(RoutesAsWritten, PUT, path) == Some(UpdateOne)
    ensures Dispatch(RoutesAsWritten, PUT, ["bulk"]) == Some(UpdateOne)
  {
    assert Hit(RoutesAsWritten[3], PUT, path);
    FirstMatchWins(RoutesAsWritten, 0, 3, PUT, path);
    assert Lower("bulk") == "bulk";
    assert Hit(RoutesAsWritten[6], PUT, ["bulk"]);
    assert Hit(RoutesAsWritten[3], PUT, ["bulk"]);
    FirstMatchWins(RoutesAsWritten, 0, 3, PUT, ["bulk"]);
  }

  /**
   * With the corrected order, `PUT /bulk`, in any case, runs the bulk
   * handler, and every key that is not "bulk" in some case reaches the
   * single update.
   */
  lemma BulkReachable(key: string)
    requires key != "" && Lower(key) != "bulk"
    ensures Dispatch(Routes, PUT, ["bulk"]) == Some(BulkUpdateAll)
    ensures Dispatch(Routes, PUT, ["Bulk"]) == Some(BulkUpdateAll)
    ensures Dispatch(Routes, PUT, [key]) == Some(UpdateOne)
    ensures Dispatch(Routes, GET, ["category", key]) == Some(ListCategory)
  {
    assert Lower("bulk") == "bulk" && Lower("Bulk") == "bulk";
    assert Hit(Routes[3], PUT, ["bulk"]);
    FirstMatchWins(Routes, 0, 3, PUT, ["bulk"]);
    assert Hit(Routes[3], PUT, ["Bulk"]);
    FirstMatchWins(Routes, 0, 3, PUT, ["Bulk"]);
    assert [key][0] == key;
    assert !Hit(Routes[3], PUT, [key]);
    assert Hit(Routes[4], PUT, [key]);
    FirstMatchWins(Routes, 0, 4, PUT, [key]);
    assert Hit(Routes[6], GET, ["category", key]);
    FirstMatchWins(Routes, 0, 6, GET, ["category", key]);
  }

  /** Literal segments ignore case: `GET /CATEGORY/exam` lists the category, as written too. */
  lemma RoutesIgnoreCase()
    ensures Dispatch(RoutesAsWritten, GET, ["CATEGORY", "exam"]) == Some(ListCategory)
    ensures Dispatch(Routes, GET, ["CATEGORY", "exam"]) == Some(ListCategory)
  {
    var path := ["CATEGORY", "exam"];
    assert Lower("CATEGORY") == "category" && Lower("category") == "category";
    assert Hit(RoutesAsWritten[5], GET, path);
    FirstMatchWins(RoutesAsWritten, 0, 5, GET, path);
    assert Hit(Routes[6], GET, path);
    FirstMatchWins(Routes, 0, 6, GET, path);
  }

  // ---------------------------------------------------------------------
  // The settings collection and its write handlers

  const KeyExists := Response(400, "Setting with this key already exists")
  const Created := Response(201, "Setting created successfully")
  const NotEditable := Response(403, "This setting is not editable")
  const Updated := Response(200, "Setting updated successfully")
  const CannotDelete := Response(403, "This setting cannot be deleted")
  const Deleted := Response(200, "Setting deleted successfully")
  const BulkCompleted := Response(200, "Bulk update completed")

  /** The `settings` collection, keyed by the unique `key`. */
  class SettingStore {
    var settings: map<string, Setting>

    constructor ()
      ensures settings == map[]
    {
      settings := map[];
    }

    /** `POST /`: a new key only; `isPublic` defaults to false and `isEditable` to true in the request. */
    method Create(key: string, value: int, category: string, description: Option<string>,
                  isPublic: Option<bool>, isEditable: Option<bool>, validation: Validation, editor: Id)
      returns (resp: Response)
      modifies this`settings
      ensures key in old(settings) ==> resp == KeyExists && settings == old(settings)
      ensures key !in old(settings) ==> resp == Created
      ensures key !in old(settings) ==> settings == old(settings)[key := Setting(
                key, value, category, description,
                if isPublic.Some? then isPublic.value else false,
                if isEditable.Some? then isEditable.value else true,
                validation, Some(editor))]
    {
      if key in settings {
        return KeyExists;
      }
      var pub := if isPublic.Some? then isPublic.value else false;
      var editable := if isEditable.Some? then isEditable.value else true;
      settings := settings[key := Setting(key, value, category, description, pub, editable, validation, Some(editor))];
      resp := Created;
    }

    /**
     * `PUT /:key`: a missing key, then a setting that is not editable, then
     * the rules as written (so a setting without options refuses every
     * value); on success the value and `updatedBy` are replaced, and the
     * description and `isPublic` only when the request supplies them.
     */
    method Update(key: string, value: int, description: Option<string>, isPublic: Option<bool>,
                  patternHolds: bool, editor: Id)
      returns (resp: Response)
      modifies this`settings
      ensures key !in old(settings) ==> resp == SettingNotFound && settings == old(settings)
      ensures key in old(settings) && !old(settings)[key].isEditable ==> resp == NotEditable && settings == old(settings)
      ensures key in old(settings) && old(settings)[key].isEditable ==>
                var rule := CheckRulesAsWritten(old(settings)[key].validation, value, patternHolds);
                var s := old(settings)[key];
                if rule.Some? then resp == Response(400, RuleMessage(rule.value)) && settings == old(settings)
                else resp == Updated && settings == old(settings)[key := s.(
                       value := value,
                       description := if description.Some? then description else s.description,
                       isPublic := if isPublic.Some? then isPublic.value else s.isPublic,
                       updatedBy := Some(editor))]
    {
      if key !in settings {
        return SettingNotFound;
      }
      var s := settings[key];
      if !s.isEditable {
        return NotEditable;
      }
      var rule := CheckRulesAsWritten(s.validation, value, patternHolds);
      if rule.Some? {
        return Response(400, RuleMessage(rule.value));
      }
      s := s.(value := value);
      if description.Some? { s := s.(description := description); }
      if isPublic.Some? { s := s.(isPublic := isPublic.value); }
      s := s.(updatedBy := Some(editor));
      settings := settings[key := s];
      resp := Updated;
    }

    /** `DELETE /:key`: a setting that is not editable cannot be deleted either. */
    method Delete(key: string) returns (resp: Response)
      modifies this`settings
      ensures key !in old(settings) ==> resp == SettingNotFound && settings == old(settings)
      ensures key in old(settings) && !old(settings)[key].isEditable ==> resp == CannotDelete && settings == old(settings)
      ensures key in old(settings) && old(settings)[key].isEditable ==> resp == Deleted && settings == old(settings) - {key}
    {
      if key !in settings {
        return SettingNotFound;
      }
      if !settings[key].isEditable {
        return CannotDelete;
      }
      settings := settings - {key};
      resp := Deleted;
    }

    /** `PUT /bulk`: the loop over the items, pushing one result each. */
    method BulkUpdate(items: seq<BulkItem>, editor: Id) returns (resp: Response, results: seq<BulkResult>)
      modifies this`settings
      ensures resp == BulkCompleted
      ensures results == BulkResults(old(settings), items)
      ensures settings == BulkStore(old(settings), items, editor)
    {
      results := [];
      var i := 0;
      while i < |items|
        invariant 0 <= i <= |items|
        invariant results == BulkResults(old(settings), items[..i])
        invariant settings == BulkStore(old(settings), items[..i], editor)
      {
        var item := items[i];
        ghost var prev := settings;
        ghost var prevResults := results;
        ghost var o := Outcome(prev, item.key);
        OutcomeAgrees(prev, old(settings), item.key);
        BulkResultsSnoc(old(settings), items, i);
        BulkStoreSnoc(old(settings), items, editor, i);
        if item.key !in settings {
          results := results + [BulkResult(item.key, false, BulkNotFound)];
        } else if !settings[item.key].isEditable {
          results := results + [BulkResult(item.key, false, BulkNotEditable)];
        } else {
          settings := settings[item.key := settings[item.key].(value := item.value, updatedBy := Some(editor))];
          results := results + [BulkResult(item.key, true, BulkUpdated)];
        }
        assert results == prevResults + [o];
        assert settings == Apply(prev, item, editor);
        i := i + 1;
      }
      assert items[..i] == items;
      resp := BulkCompleted;
    }
  }
}
