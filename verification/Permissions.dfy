/**
 Model permissions: the team and key lists, their intersection, the check made on every request, the
 listing of models, and the comma-separated column the lists are stored in.
 */
module Permissions {
  import opened Basics
  import opened Text

  // ---------- What a list means ----------

  /** What an administrator means by a list: nothing but blanks, or a star, allows every model. */
  ghost predicate Grants(list: seq<string>, model: string) {
    || (forall e :: e in list ==> Trim(e) == "")
    || (exists e :: e in list && Trim(e) == "*")
    || (model != "" && exists e :: e in list && Trim(e) == model)
  }

  /** The check on a request for `model`. */
  predicate IsValidModel(model: string, list: seq<string>) {
    list != [] && (list[0] == "*" || model in list)
  }

  predicate IsWildcard(list: seq<string>) {
    |list| == 1 && list[0] == "*"
  }

  // ---------- Specification functions ----------

  /** The trimmed entries, without the blank ones. */
  function NonBlank(list: seq<string>): seq<string> {
    if list == [] then []
    else
      var e := Trim(list[|list| - 1]);
      NonBlank(list[..|list| - 1]) + if e == "" then [] else [e]
  }

  /** Only the first occurrence of each entry. */
  function Distinct(list: seq<string>): seq<string> {
    if list == [] then []
    else
      var rest := Distinct(list[..|list| - 1]);
      if list[|list| - 1] in rest then rest else rest + [list[|list| - 1]]
  }

  /** The entries that are in `allowed`, in order. */
  function Keep(list: seq<string>, allowed: set<string>): seq<string> {
    if list == [] then []
    else Keep(list[..|list| - 1], allowed) + if list[|list| - 1] in allowed then [list[|list| - 1]] else []
  }

  /** normalizedPermissionList */
  function Normalized(list: seq<string>): seq<string> {
    var entries := NonBlank(list);
    if entries == [] || "*" in entries then ["*"] else Distinct(entries)
  }

  /** EffectiveModelList */
  function Effective(teamList: seq<string>, keyList: seq<string>): seq<string> {
    var team, key := Normalized(teamList), Normalized(keyList);
    if IsWildcard(team) then (if IsWildcard(key) then ["*"] else key)
    else if IsWildcard(key) then team
    else Keep(key, set m | m in team)
  }

  lemma {:induction false} NonBlankMembers(list: seq<string>, e: string)
    ensures e in NonBlank(list) <==> e != "" && exists x :: x in list && Trim(x) == e
  {
    if list != [] {
      var init, last := list[..|list| - 1], list[|list| - 1];
      NonBlankMembers(init, e);
      assert list == init + [last];
      assert forall x :: x in list <==> x in init || x == last;
    }
  }

  lemma {:induction false} DistinctMembers(list: seq<string>)
    ensures forall e :: e in Distinct(list) <==> e in list
    ensures Distinct(list) == [] <==> list == []
  {
    if list != [] {
      DistinctMembers(list[..|list| - 1]);
      assert list == list[..|list| - 1] + [list[|list| - 1]];
    }
  }

  lemma {:induction false} KeepMembers(list: seq<string>, allowed: set<string>)
    ensures forall e :: e in Keep(list, allowed) <==> e in list && e in allowed
  {
    if list != [] {
      KeepMembers(list[..|list| - 1], allowed);
      assert list == list[..|list| - 1] + [list[|list| - 1]];
    }
  }

  /** A normalized list is a wildcard exactly when the list allows everything, and otherwise holds what it names. */
  lemma NormalizedMeaning(list: seq<string>)
    ensures Normalized(list) != []
    ensures IsWildcard(Normalized(list)) <==> "*" in Normalized(list)
    ensures IsWildcard(Normalized(list))
            <==> (forall e :: e in list ==> Trim(e) == "") || (exists e :: e in list && Trim(e) == "*")
    ensures !IsWildcard(Normalized(list)) ==>
              forall m :: m in Normalized(list) <==> m != "" && exists e :: e in list && Trim(e) == m
  {
    var entries := NonBlank(list);
    forall m
      ensures m in entries <==> m != "" && exists e :: e in list && Trim(e) == m
    {
      NonBlankMembers(list, m);
    }
    if entries != [] {
      assert entries[0] in entries;
    }
    DistinctMembers(entries);
    assert "*" != "";
    if e :| e in list && Trim(e) != "" {
      assert Trim(e) in entries;
    }
  }

  lemma NormalizedGrants(list: seq<string>, model: string)
    ensures Grants(list, model) <==> IsWildcard(Normalized(list)) || model in Normalized(list)
  {
    NormalizedMeaning(list);
  }

  /** A request is allowed exactly when both the team list and the key list allow its model. */
  lemma PermissionMeet(model: string, teamList: seq<string>, keyList: seq<string>)
    ensures IsValidModel(model, Effective(teamList, keyList)) <==> Grants(teamList, model) && Grants(keyList, model)
  {
    NormalizedGrants(teamList, model);
    NormalizedGrants(keyList, model);
    NormalizedMeaning(teamList);
    NormalizedMeaning(keyList);
    var team, key := Normalized(teamList), Normalized(keyList);
    KeepMembers(key, set m | m in team);
    if !IsWildcard(team) && !IsWildcard(key) && Effective(teamList, keyList) != [] {
      assert Effective(teamList, keyList)[0] in Effective(teamList, keyList);
    }
  }

  /** The effective list is empty exactly when both lists are restricted and name no common model. */
  lemma {:induction false} EffectiveEmpty(teamList: seq<string>, keyList: seq<string>)
    ensures Effective(teamList, keyList) == []
            <==> forall m :: !(Grants(teamList, m) && Grants(keyList, m))
  {
    var effective := Effective(teamList, keyList);
    forall m
      ensures IsValidModel(m, effective) <==> Grants(teamList, m) && Grants(keyList, m)
    {
      PermissionMeet(m, teamList, keyList);
    }
    if effective != [] {
      assert IsValidModel(effective[0], effective);
    }
  }

  /**
   Applying the team's list a second time keeps every permission exactly when the first result is not
   empty: an empty list is read back as "no restriction" and turns into the team's own list.
   */
  lemma ReapplyTeamList(teamList: seq<string>, keyList: seq<string>)
    ensures var once := Effective(teamList, keyList);
            once != [] <==> forall m :: IsValidModel(m, Effective(teamList, once)) <==> IsValidModel(m, once)
  {
    var once := Effective(teamList, keyList);
    if once == [] {
      NormalizedMeaning(teamList);
      assert NonBlank([]) == [];
      var twice := Effective(teamList, once);
      assert IsValidModel(twice[0], twice);
    } else {
      forall m
        ensures IsValidModel(m, Effective(teamList, once)) <==> IsValidModel(m, once)
      {
        PermissionMeet(m, teamList, once);
        PermissionMeet(m, teamList, keyList);
        EffectiveGrantsItself(teamList, keyList, m);
      }
    }
  }

  lemma EffectiveGrantsItself(teamList: seq<string>, keyList: seq<string>, m: string)
    requires Effective(teamList, keyList) != []
    ensures Grants(Effective(teamList, keyList), m) <==> IsValidModel(m, Effective(teamList, keyList))
  {
    var once := Effective(teamList, keyList);
    EffectiveEntries(teamList, keyList);
    assert Trim("*") == "*";
    assert once[0] in once;
  }

  /** Every entry of an effective list is already trimmed and not blank, and a star stands alone. */
  lemma EffectiveEntries(teamList: seq<string>, keyList: seq<string>)
    ensures forall e :: e in Effective(teamList, keyList) ==> Trim(e) == e && e != ""
    ensures "*" in Effective(teamList, keyList) ==> Effective(teamList, keyList) == ["*"]
  {
    var team, key := Normalized(teamList), Normalized(keyList);
    NormalizedMeaning(teamList);
    NormalizedMeaning(keyList);
    NormalizedTrimmed(teamList);
    NormalizedTrimmed(keyList);
    KeepMembers(key, set m | m in team);
  }

  lemma NormalizedTrimmed(list: seq<string>)
    ensures forall e :: e in Normalized(list) ==> Trim(e) == e && e != ""
  {
    NormalizedMeaning(list);
    assert Trim("*") == "*";
    forall e | e in Normalized(list)
      ensures Trim(e) == e && e != ""
    {
      if !IsWildcard(Normalized(list)) {
        var x :| x in list && Trim(x) == e;
        TrimIsTrimmed(x);
      }
    }
  }

  // ---------- The loops ----------

  method NormalizedPermissionList(modelList: seq<string>) returns (normalized: seq<string>)
    ensures normalized == Normalized(modelList)
  {
    if |modelList| == 0 {
      return ["*"];
    }
    var seen: set<string> := {};
    normalized := [];
    for i := 0 to |modelList|
      invariant "*" !in NonBlank(modelList[..i])
      invariant normalized == Distinct(NonBlank(modelList[..i]))
      invariant forall m :: m in seen <==> m in normalized
    {
      var model := Trim(modelList[i]);
      NextEntry(modelList, i);
      if model == "" {
        continue;
      }
      if model == "*" {
        StarStays(modelList, i + 1);
        return ["*"];
      }
      if model in seen {
        continue;
      }
      seen := seen + {model};
      normalized := normalized + [model];
    }
    assert modelList[..|modelList|] == modelList;
    DistinctMembers(NonBlank(modelList));
    if |normalized| == 0 {
      return ["*"];
    }
  }

  lemma NextEntry(list: seq<string>, i: nat)
    requires i < |list|
    ensures var entries, e := NonBlank(list[..i]), Trim(list[i]);
            if e == "" then NonBlank(list[..i + 1]) == entries
            else
              && NonBlank(list[..i + 1]) == entries + [e]
              && Distinct(entries + [e])
                  == if e in Distinct(entries) then Distinct(entries) else Distinct(entries) + [e]
  {
    assert list[..i + 1][..i] == list[..i];
    var entries, e := NonBlank(list[..i]), Trim(list[i]);
    assert (entries + [e])[..|entries|] == entries;
  }

  lemma {:induction false} StarStays(list: seq<string>, i: nat)
    requires i <= |list| && "*" in NonBlank(list[..i])
    ensures "*" in NonBlank(list)
  {
    NonBlankMembers(list[..i], "*");
    var x :| x in list[..i] && Trim(x) == "*";
    assert x in list;
    NonBlankMembers(list, "*");
  }

  method EffectiveModelList(teamModelList: seq<string>, keyModelList: seq<string>) returns (effective: seq<string>)
    ensures effective == Effective(teamModelList, keyModelList)
  {
    var team := NormalizedPermissionList(teamModelList);
    var key := NormalizedPermissionList(keyModelList);
    if IsWildcard(team) && IsWildcard(key) {
      return ["*"];
    }
    if IsWildcard(team) {
      return key;
    }
    if IsWildcard(key) {
      return team;
    }
    var allowed := Members(team);
    effective := KeepAllowed(key, allowed);
  }

  method Members(list: seq<string>) returns (members: set<string>)
    ensures members == set m | m in list
  {
    members := {};
    for i := 0 to |list|
      invariant members == set m | m in list[..i]
    {
      members := members + {list[i]};
    }
    assert list[..|list|] == list;
  }

  method KeepAllowed(list: seq<string>, allowed: set<string>) returns (kept: seq<string>)
    ensures kept == Keep(list, allowed)
  {
    kept := [];
    for i := 0 to |list|
      invariant kept == Keep(list[..i], allowed)
    {
      assert list[..i + 1][..i] == list[..i];
      if list[i] in allowed {
        kept := kept + [list[i]];
      }
    }
    assert list[..|list|] == list;
  }

  // ---------- Listing the models ----------

  /** The registered groups a list allows, in the order of `all`. */
  function Listed(all: seq<string>, list: seq<string>): seq<string> {
    if all == [] then []
    else
      var last := all[|all| - 1];
      Listed(all[..|all| - 1], list) + if IsValidModel(last, list) then [last] else []
  }

  /** `all` is the sorted list of the registered group names. */
  method AccessibleModelGroups(all: seq<string>, modelList: seq<string>) returns (out: seq<string>)
    ensures out == Listed(all, modelList)
  {
    out := [];
    if |modelList| == 0 {
      ListedNone(all);
      return [];
    }
    if modelList[0] == "*" {
      ListedAll(all, modelList);
      return all;
    }
    var allowed: set<string> := {};
    for i := 0 to |modelList|
      invariant allowed == set m | m in modelList[..i]
    {
      allowed := allowed + {modelList[i]};
    }
    assert modelList[..|modelList|] == modelList;
    for i := 0 to |all|
      invariant out == Listed(all[..i], modelList)
    {
      assert all[..i + 1][..i] == all[..i];
      if all[i] in allowed {
        out := out + [all[i]];
      }
    }
    assert all[..|all|] == all;
  }

  lemma {:induction false} ListedNone(all: seq<string>)
    ensures Listed(all, []) == []
  {
    if all != [] {
      ListedNone(all[..|all| - 1]);
    }
  }

  lemma {:induction false} ListedAll(all: seq<string>, list: seq<string>)
    requires list != [] && list[0] == "*"
    ensures Listed(all, list) == all
  {
    if all != [] {
      ListedAll(all[..|all| - 1], list);
    }
  }

  lemma {:induction false} ListedMembers(all: seq<string>, list: seq<string>, m: string)
    ensures m in Listed(all, list) <==> m in all && IsValidModel(m, list)
  {
    if all != [] {
      ListedMembers(all[..|all| - 1], list, m);
      assert all == all[..|all| - 1] + [all[|all| - 1]];
    }
  }

  /** Outcome of the two checks made on the model a request names. */
  datatype ModelCheck = ModelRequired | NotConfigured | NotAllowed | Allowed

  function CheckModel(groups: set<string>, model: string, list: seq<string>): ModelCheck {
    if model == "" then ModelRequired
    else if model !in groups then NotConfigured
    else if !IsValidModel(model, list) then NotAllowed
    else Allowed
  }

  /**
   The model list shows exactly the models a request with the same key would be let through with.
   No registered group has an empty name, since the startup sync refuses one.
   */
  lemma ModelsListMatchesRequests(all: seq<string>, groups: set<string>, list: seq<string>, m: string)
    requires forall g :: g in all <==> g in groups
    requires "" !in groups
    ensures m in Listed(all, list) <==> CheckModel(groups, m, list) == Allowed
  {
    ListedMembers(all, list, m);
  }

  /**
   A request is let through to a model exactly when it names a configured group that both its team and its key
   allow; otherwise it is told the first of the three that fails.
   */
  lemma RequestIsAllowed(groups: set<string>, model: string, teamList: seq<string>, keyList: seq<string>)
    ensures var check := CheckModel(groups, model, Effective(teamList, keyList));
            && (check == Allowed <==>
                  model != "" && model in groups && Grants(teamList, model) && Grants(keyList, model))
            && (check == ModelRequired <==> model == "")
            && (check == NotConfigured <==> model != "" && model !in groups)
  {
    PermissionMeet(model, teamList, keyList);
  }

  // ---------- The stored column ----------

  /** What the database driver hands to Scan. */
  datatype DbValue = Null | TextValue(text: string) | BytesValue(text: string) | OtherValue

  datatype ScanError = UnsupportedDataType

  /** StringSlice.Value */
  function Value(list: seq<string>): DbValue {
    TextValue(Join(list, ','))
  }

  /** StringSlice.Scan */
  function Scan(value: DbValue): Result<seq<string>, ScanError> {
    match value
    case Null => Ok([])
    case OtherValue => Err(UnsupportedDataType)
    case _ => if value.text == "" then Ok([]) else Ok(Split(value.text, ','))
  }

  /** A stored list is read back unchanged exactly when it holds no comma and is not the single empty string. */
  lemma ScanAfterValue(list: seq<string>)
    ensures Scan(Value(list)) == Ok(list) <==> list != [""] && forall i :: 0 <= i < |list| ==> ',' !in list[i]
  {
    SplitAfterJoin(list, ',');
    if |list| == 1 {
      assert list == [list[0]];
    }
  }

  /** Any column text survives a read followed by a write. */
  lemma ValueAfterScan(text: string)
    ensures Scan(TextValue(text)).Ok? && Value(Scan(TextValue(text)).value) == TextValue(text)
  {
    JoinAfterSplit(text, ',');
  }

  /** What the admin API stores. */
  function AdminList(list: seq<string>, allModels: bool): seq<string> {
    var entries := NonBlank(list);
    if allModels || entries == [] || "*" in entries then ["*"] else entries
  }

  method NormalizeModelList(modelList: seq<string>, allModels: bool) returns (normalized: seq<string>)
    ensures normalized == AdminList(modelList, allModels)
  {
    if allModels {
      return ["*"];
    }
    normalized := [];
    for i := 0 to |modelList|
      invariant "*" !in NonBlank(modelList[..i])
      invariant normalized == NonBlank(modelList[..i])
    {
      assert modelList[..i + 1][..i] == modelList[..i];
      var model := Trim(modelList[i]);
      if model == "" {
        continue;
      }
      if model == "*" {
        StarStays(modelList, i + 1);
        return ["*"];
      }
      normalized := normalized + [model];
    }
    assert modelList[..|modelList|] == modelList;
    if |normalized| == 0 {
      return ["*"];
    }
  }

  /** The admin API never changes what a list grants. */
  lemma AdminListGrants(list: seq<string>, allModels: bool, m: string)
    ensures Grants(AdminList(list, allModels), m) <==> allModels || Grants(list, m)
  {
    AdminListEntries(list, allModels);
    var stored := AdminList(list, allModels);
    assert stored[0] in stored;
    if stored == ["*"] {
      assert Trim("*") == "*" && "*" in stored;
      if !allModels {
        StarGrants(list);
      }
    } else {
      forall e
        ensures e in stored <==> e != "" && exists x :: x in list && Trim(x) == e
      {
        NonBlankMembers(list, e);
      }
      EntriesGrant(list, stored, m);
    }
  }

  /** A list whose trimmed entries are none or include a star allows everything. */
  lemma StarGrants(list: seq<string>)
    requires NonBlank(list) == [] || "*" in NonBlank(list)
    ensures forall m :: Grants(list, m)
  {
    NonBlankMembers(list, "*");
    if NonBlank(list) == [] {
      forall x | x in list
        ensures Trim(x) == ""
      {
        NonBlankMembers(list, Trim(x));
      }
    }
  }

  lemma EntriesGrant(list: seq<string>, entries: seq<string>, m: string)
    requires forall e :: e in entries <==> e != "" && exists x :: x in list && Trim(x) == e
    requires forall e :: e in entries ==> Trim(e) == e && e != ""
    requires entries != [] && "*" !in entries
    ensures Grants(entries, m) <==> Grants(list, m)
  {
    assert entries[0] in entries;
    assert forall x :: x in list && Trim(x) != "" ==> Trim(x) in entries;
    assert Grants(entries, m) <==> m in entries;
    assert Grants(list, m) <==> m in entries;
  }

  lemma AdminListEntries(list: seq<string>, allModels: bool)
    ensures AdminList(list, allModels) != []
    ensures forall e :: e in AdminList(list, allModels) ==> Trim(e) == e && e != ""
  {
    assert Trim("*") == "*";
    forall e | e in NonBlank(list)
      ensures Trim(e) == e && e != ""
    {
      NonBlankMembers(list, e);
      var x :| x in list && Trim(x) == e;
      TrimIsTrimmed(x);
    }
  }

  ghost predicate CommaFree(list: seq<string>) {
    forall i :: 0 <= i < |list| ==> ',' !in list[i]
  }

  /** What the admin API stores is read back unchanged exactly when it holds no comma. */
  lemma AdminListSurvivesStorage(list: seq<string>, allModels: bool)
    ensures Scan(Value(AdminList(list, allModels))) == Ok(AdminList(list, allModels))
            <==> CommaFree(AdminList(list, allModels))
  {
    AdminListEntries(list, allModels);
    ScanAfterValue(AdminList(list, allModels));
    assert "" in [""];
  }

  /**
   From the admin API through the database to the check on a request: with comma-free names, a request
   is allowed exactly when what was entered for its team and what was entered for its key both allow it.
   */
  lemma StoredPermissionsMeet(teamInput: seq<string>, teamAll: bool, keyInput: seq<string>, keyAll: bool, m: string)
    requires CommaFree(AdminList(teamInput, teamAll)) && CommaFree(AdminList(keyInput, keyAll))
    ensures var team := Scan(Value(AdminList(teamInput, teamAll)));
            var key := Scan(Value(AdminList(keyInput, keyAll)));
            && team.Ok? && key.Ok?
            && (IsValidModel(m, Effective(team.value, key.value))
                <==> (teamAll || Grants(teamInput, m)) && (keyAll || Grants(keyInput, m)))
  {
    AdminListSurvivesStorage(teamInput, teamAll);
    AdminListSurvivesStorage(keyInput, keyAll);
    PermissionMeet(m, AdminList(teamInput, teamAll), AdminList(keyInput, keyAll));
    AdminListGrants(teamInput, teamAll, m);
    AdminListGrants(keyInput, keyAll, m);
  }
}
