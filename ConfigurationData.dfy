/**
 * The configuration schema of an indexer (`ConfigurationData`): an ordered
 * list of typed setup items, serialised to and loaded from a JSON array of
 * `{id, type, name, value, ...}` objects. An item whose name is "password"
 * (compared case-insensitively) holds a secret: the display form masks it
 * with a fixed sentinel, the persisted form encrypts it through a protector,
 * and loading the sentinel back means "no change".
 */
module ConfigurationData {
  import opened Wrappers
  import opened NetStrings

  /** `PASSWORD_REPLACEMENT`: the sentinel the display form shows instead of a password. */
  const PasswordReplacement: string := "|||%%PREVJACKPASSWD%%|||"

  datatype ItemType = InputString | InputBool | DisplayImage | DisplayInfo | HiddenData | Recaptcha

  /** `ItemType.ToString().ToLower()`, the "type" field of a serialised item. */
  function TypeName(t: ItemType): string {
    match t
    case InputString => "inputstring"
    case InputBool => "inputbool"
    case DisplayImage => "displayimage"
    case DisplayInfo => "displayinfo"
    case HiddenData => "hiddendata"
    case Recaptcha => "recaptcha"
  }

  /** The item types whose item class derives from `StringItem`. */
  type StringItemType = t: ItemType | t.InputString? || t.HiddenData? || t.DisplayInfo? || t.Recaptcha?
    witness InputString

  type byte = bv8

  /**
   * One setup item. `StringItem` covers `StringItem` (InputString),
   * `HiddenItem` (HiddenData), `DisplayItem` (DisplayInfo) and
   * `RecaptchaItem` (Recaptcha), which all carry `Value`, `SiteKey` and `Cookie`.
   */
  datatype Item =
    | StringItem(kind: StringItemType, name: string, value: Text, siteKey: Text, cookie: Text)
    | BoolItem(name: string, flag: bool)
    | ImageItem(name: string, image: seq<byte>)
  {
    function Type(): ItemType {
      match this
      case StringItem(k, _, _, _, _) => k
      case BoolItem(_, _) => InputBool
      case ImageItem(_, _) => DisplayImage
    }

    /** `Item.ID`: the name with every space removed, then lower-cased. */
    function ID(): (id: string)
      ensures |id| <= |name|
      ensures forall i :: 0 <= i < |id| ==> id[i] != ' ' && !('A' <= id[i] <= 'Z')
    {
      ToLower(RemoveSpaces(name))
    }

    /** The source's secret test: the name equals "password", ignoring case. */
    predicate IsPassword() {
      ToLower(name) == "password"  // an ignore-case comparison against a lower-case literal
    }
  }

  /** `new StringItem { Name = name }`: an input string whose value is null. */
  function NewStringItem(name: string): Item {
    StringItem(InputString, name, Null, Null, Null)
  }

  /** The `CookieHeader` hidden item every schema carries: `new HiddenItem { Name = "CookieHeader" }`. */
  const CookieHeader: Item := StringItem(HiddenData, "CookieHeader", Str(""), Null, Null)

  lemma ToLowerCons(c: char, t: string)
    ensures ToLower([c] + t) == [ToLowerChar(c)] + ToLower(t)
  {
  }

  lemma RemoveSpacesCons(c: char, t: string)
    ensures RemoveSpaces([c] + t) == if c == ' ' then RemoveSpaces(t) else [c] + RemoveSpaces(t)
  {
    assert ([c] + t)[1..] == t;
  }

  lemma {:induction false} LowerCommutesWithRemoveSpaces(s: string)
    ensures ToLower(RemoveSpaces(s)) == RemoveSpaces(ToLower(s))
  {
    if s != [] {
      var c, t := s[0], s[1..];
      assert s == [c] + t;
      LowerCommutesWithRemoveSpaces(t);
      ToLowerCons(c, t);
      RemoveSpacesCons(c, t);
      RemoveSpacesCons(ToLowerChar(c), ToLower(t));
      if c != ' ' {
        ToLowerCons(c, RemoveSpaces(t));
      }
    }
  }

  /**
   * Two items share an ID exactly when their names agree once lower-cased
   * and stripped of spaces, in either order of the two steps.
   */
  lemma IdIgnoresSpacesAndCase(a: Item, b: Item)
    ensures a.ID() == b.ID() <==> RemoveSpaces(ToLower(a.name)) == RemoveSpaces(ToLower(b.name))
  {
    LowerCommutesWithRemoveSpaces(a.name);
    LowerCommutesWithRemoveSpaces(b.name);
  }

  /** An ID is its own ID: applying the derivation twice changes nothing. */
  lemma IdIsIdempotent(it: Item)
    ensures NewStringItem(it.ID()).ID() == it.ID()
  {
    var id := it.ID();
    assert RemoveSpaces(id) == id;
    assert forall i :: 0 <= i < |id| ==> ToLowerChar(id[i]) == id[i];
    assert ToLower(id) == id;
  }

  // ---------------------------------------------------------------------
  // GetItems

  /** Whether `GetItems(forDisplay: false)` keeps an item: the filter of the source, listing five types. */
  predicate Persisted(it: Item) {
    var t := it.Type();
    t == HiddenData || t == InputBool || t == InputString || t == Recaptcha || t == DisplayInfo
  }

  function PersistedItems(items: seq<Item>): (r: seq<Item>)
    ensures |r| <= |items|
    ensures forall it :: it in r <==> it in items && !it.ImageItem?
  {
    if items == [] then []
    else if Persisted(items[0]) then [items[0]] + PersistedItems(items[1..])
    else PersistedItems(items[1..])
  }

  /** The persisted items keep their order: filtering a concatenation filters each part. */
  lemma {:induction false} PersistedItemsAppend(a: seq<Item>, b: seq<Item>)
    ensures PersistedItems(a + b) == PersistedItems(a) + PersistedItems(b)
  {
    if a == [] {
      assert a + b == b;
    } else {
      assert (a + b)[0] == a[0] && (a + b)[1..] == a[1..] + b;
      PersistedItemsAppend(a[1..], b);
    }
  }

  /** One item is persisted exactly when it is not an image. */
  lemma PersistedItemsSingle(it: Item)
    ensures PersistedItems([it]) == if it.ImageItem? then [] else [it]
  {
    assert [it][1..] == [];
  }

  /**
   * `GetItems(forDisplay)`: every item for display; for persistence every
   * item except `DisplayImage` ones (DisplayInfo is kept).
   */
  function GetItems(items: seq<Item>, forDisplay: bool): (r: seq<Item>)
    ensures forDisplay ==> r == items
    ensures !forDisplay ==> forall it :: it in r <==> it in items && it.Type() != DisplayImage
  {
    if forDisplay then items else PersistedItems(items)
  }

  // ---------------------------------------------------------------------
  // The JSON array

  datatype JValue = JNull | JString(s: string) | JBool(b: bool)

  /** A JSON object: property name to value. */
  type JObject = map<string, JValue>

  type JArray = seq<JObject>

  function TextToJson(t: Text): JValue {
    match t
    case Null => JNull
    case Str(s) => JString(s)
  }

  /** `obj.Value<string>(key)`: null when absent or null; a boolean prints as "True" or "False". */
  function StringValue(obj: JObject, key: string): (r: Text)
    ensures r.Null? <==> key !in obj || obj[key].JNull?
    ensures key in obj && obj[key].JString? ==> r == Str(obj[key].s)
  {
    if key !in obj then Null
    else match obj[key]
      case JNull => Null
      case JString(s) => Str(s)
      case JBool(b) => Str(if b then "True" else "False")
  }

  /**
   * `obj.Value<bool>(key)`: false when absent; a string goes through
   * `bool.Parse`; an explicit null cannot become a bool. `None` is the
   * exception the source throws.
   */
  function BoolValue(obj: JObject, key: string): (r: Option<bool>)
    ensures key !in obj ==> r == Some(false)
    ensures r.None? <==> key in obj && (obj[key].JNull? || (obj[key].JString? && !IsBoolWord(obj[key].s)))
    ensures key in obj && obj[key].JBool? ==> r == Some(obj[key].b)
  {
    if key !in obj then Some(false)
    else match obj[key]
      case JNull => None
      case JBool(b) => Some(b)
      case JString(s) =>
        var t := ToLower(Trim(s));
        if t == "true" then Some(true) else if t == "false" then Some(false) else None
  }

  /** A string `bool.Parse` accepts: "true" or "false" in any letter case, with white space around it. */
  predicate IsBoolWord(s: string) {
    ToLower(Trim(s)) in {"true", "false"}
  }

  /** Reading back a text as `ToJson` writes it gives the same text. */
  lemma StringValueReadsWrittenText(obj: JObject, key: string, t: Text)
    ensures StringValue(obj[key := TextToJson(t)], key) == t
  {
  }

  /** A boolean reads back as itself, whether written as a JSON boolean or printed as `Value<string>` prints it. */
  lemma BoolValueReadsWrittenBool(obj: JObject, key: string, b: bool)
    ensures BoolValue(obj[key := JBool(b)], key) == Some(b)
    ensures BoolValue(obj[key := JString(StringValue(map[key := JBool(b)], key).s)], key) == Some(b)
  {
    assert ToLower("True") == "true" && ToLower("False") == "false";
    assert Trim("True") == "True" && Trim("False") == "False";
  }

  /** The external protection service: `Protect` and `UnProtect`. */
  datatype Protector = Protector(protect: string -> string, unprotect: Text -> Text)

  /**
   * The law the round trip needs of a protector: `UnProtect` undoes `Protect`
   * on every non-empty secret and maps the empty string to itself.
   */
  ghost predicate ProtectorInverts(p: Protector) {
    && (forall v: string :: v != "" ==> p.unprotect(Str(p.protect(v))) == Str(v))
    && p.unprotect(Str("")) == Str("")
  }

  // ---------------------------------------------------------------------
  // ToJson

  /** The value a string item writes: its value, with the secret rules applied to a password. */
  function EmittedValue(it: Item, ps: Option<Protector>, forDisplay: bool): (r: Text)
    requires it.StringItem?
    ensures !it.IsPassword() ==> r == it.value
    ensures it.IsPassword() && IsNullOrEmpty(it.value) ==> r == Str("")
    ensures it.IsPassword() && !IsNullOrEmpty(it.value) && forDisplay ==> r == Str(PasswordReplacement)
    ensures it.IsPassword() && !IsNullOrEmpty(it.value) && !forDisplay ==>
      r == if ps.Some? then Str(ps.value.protect(it.value.s)) else it.value
  {
    var value := it.value;
    if !it.IsPassword() then value
    else if IsNullOrEmpty(value) then Str("")
    else if forDisplay then Str(PasswordReplacement)
    else if ps.Some? then Str(ps.value.protect(value.s))
    else value
  }

  /** The JSON object `ToJson` emits for one item. */
  function Entry(it: Item, ps: Option<Protector>, forDisplay: bool, dataUrl: seq<byte> -> string): (o: JObject)
    ensures StringValue(o, "id") == Str(it.ID())
    ensures StringValue(o, "name") == Str(it.name)
    ensures StringValue(o, "type") == Str(TypeName(it.Type()))
  {
    var head := map["id" := JString(it.ID()), "type" := JString(TypeName(it.Type())), "name" := JString(it.name)];
    match it
    case StringItem(kind, _, _, siteKey, _) =>
      if kind == Recaptcha then head["sitekey" := TextToJson(siteKey)]
      else head["value" := TextToJson(EmittedValue(it, ps, forDisplay))]
    case BoolItem(_, flag) => head["value" := JBool(flag)]
    case ImageItem(_, image) => head["value" := JString(dataUrl(image))]
  }

  /**
   * `ToJson(ps, forDisplay)`: one object per item of `GetItems(forDisplay)`,
   * in order. `dataUrl` stands for `DataUrlUtils.BytesToDataUrl(_, "image/jpeg")`.
   */
  function ToJson(items: seq<Item>, ps: Option<Protector>, forDisplay: bool, dataUrl: seq<byte> -> string): (r: JArray)
    ensures |r| == |GetItems(items, forDisplay)|
    ensures forall k :: 0 <= k < |r| ==> StringValue(r[k], "id") == Str(GetItems(items, forDisplay)[k].ID())
  {
    var g := GetItems(items, forDisplay);
    seq(|g|, k requires 0 <= k < |g| => Entry(g[k], ps, forDisplay, dataUrl))
  }

  /** The display form never shows a password: only "" or the sentinel. */
  lemma DisplayFormMasksPasswords(items: seq<Item>, ps: Option<Protector>, dataUrl: seq<byte> -> string, k: nat)
    requires k < |items|
    requires items[k].StringItem? && items[k].kind != Recaptcha && items[k].IsPassword()
    ensures |ToJson(items, ps, true, dataUrl)| == |items|
    ensures StringValue(ToJson(items, ps, true, dataUrl)[k], "value") in {Str(""), Str(PasswordReplacement)}
  {
  }

  /** The persisted form of a non-empty password is `Protect(value)` with a protector, the plaintext without. */
  lemma PersistedFormProtectsPasswords(items: seq<Item>, ps: Option<Protector>, dataUrl: seq<byte> -> string, k: nat)
    requires k < |GetItems(items, false)|
    requires var it := GetItems(items, false)[k];
      it.StringItem? && it.kind != Recaptcha && it.IsPassword() && !IsNullOrEmpty(it.value)
    ensures var it := GetItems(items, false)[k];
      StringValue(ToJson(items, ps, false, dataUrl)[k], "value")
      == if ps.Some? then Str(ps.value.protect(it.value.s)) else it.value
  {
  }

  // ---------------------------------------------------------------------
  // LoadValuesFromJson

  /** The position of the first object whose "id" is `id`, or -1 (`FirstOrDefault`). */
  function FirstIndexById(arr: JArray, id: string): (k: int)
    ensures -1 <= k < |arr|
    ensures k >= 0 ==> StringValue(arr[k], "id") == Str(id)
    ensures forall j :: 0 <= j < |arr| && (k < 0 || j < k) ==> StringValue(arr[j], "id") != Str(id)
  {
    if arr == [] then -1
    else if StringValue(arr[0], "id") == Str(id) then 0
    else
      var k := FirstIndexById(arr[1..], id);
      if k < 0 then -1 else k + 1
  }

  /**
   * The `switch` of `LoadValuesFromJson`: what the payload object `obj`
   * does to the item whose ID it carries. `None` is the exception
   * `Value<bool>` throws. DisplayInfo and DisplayImage have no case.
   */
  function ApplyObject(it: Item, obj: JObject, ps: Option<Protector>): Option<Item> {
    match it
    case StringItem(kind, _, _, _, _) =>
      var newValue := StringValue(obj, "value");
      if kind == InputString then
        if it.IsPassword() then
          if newValue == Str(PasswordReplacement) then Some(it)
          else if ps.Some? then Some(it.(value := ps.value.unprotect(newValue)))
          else Some(it.(value := newValue))
        else Some(it.(value := newValue))
      else if kind == HiddenData then Some(it.(value := newValue))
      else if kind == Recaptcha then Some(it.(value := newValue, cookie := StringValue(obj, "cookie")))
      else Some(it)
    case BoolItem(_, _) =>
      (match BoolValue(obj, "value")
       case None => None
       case Some(b) => Some(it.(flag := b)))
    case ImageItem(_, _) => Some(it)
  }

  /**
   * What loading does to one item: an item outside `GetItems(false)` or
   * without a matching object is left as it is; otherwise the first
   * matching object is applied to it.
   */
  function LoadItem(it: Item, arr: JArray, ps: Option<Protector>): Option<Item> {
    var k := FirstIndexById(arr, it.ID());
    if k < 0 || !Persisted(it) then Some(it) else ApplyObject(it, arr[k], ps)
  }

  /**
   * The only payload that makes loading an item throw: the item is a bool
   * item, and the first object carrying its ID has a "value" that is null or
   * a string other than "true" or "false".
   */
  lemma LoadItemThrows(it: Item, arr: JArray, ps: Option<Protector>)
    ensures var k := FirstIndexById(arr, it.ID());
      LoadItem(it, arr, ps).None? <==> it.BoolItem? && k >= 0 && BoolValue(arr[k], "value").None?
  {
  }

  /** A bool item given a JSON null, or the word "yes", throws. */
  lemma BoolItemRejectsNullAndYes(it: Item)
    requires it.BoolItem?
    ensures LoadItem(it, [map["id" := JString(it.ID()), "value" := JNull]], None).None?
    ensures LoadItem(it, [map["id" := JString(it.ID()), "value" := JString("yes")]], None).None?
  {
    assert Trim("yes") == "yes";
    assert ToLower("yes") == "yes";
  }

  /** The items after `LoadValuesFromJson`, and whether it finished without throwing. */
  datatype LoadResult = LoadResult(items: seq<Item>, completed: bool)

  /**
   * `LoadValuesFromJson` from position `i` on, for the per-item effect
   * `load`: the items are updated in place in order, so an exception leaves
   * the earlier ones updated and the rest as they were.
   */
  function LoadFrom(items: seq<Item>, i: nat, load: Item -> Option<Item>): (r: LoadResult)
    requires i <= |items|
    decreases |items| - i
    ensures |r.items| == |items|
  {
    if i == |items| then LoadResult(items, true)
    else match load(items[i])
      case None => LoadResult(items, false)
      case Some(updated) => LoadFrom(items[i := updated], i + 1, load)
  }

  /** `LoadValuesFromJson(json, ps)` on the whole item list. */
  function LoadValues(items: seq<Item>, arr: JArray, ps: Option<Protector>): (r: LoadResult)
    ensures |r.items| == |items|
  {
    LoadFrom(items, 0, it => LoadItem(it, arr, ps))
  }

  lemma {:induction false} LoadFromEffect(items: seq<Item>, i: nat, load: Item -> Option<Item>)
    requires i <= |items|
    decreases |items| - i
    ensures var r := LoadFrom(items, i, load);
      && r.items[..i] == items[..i]
      && (r.completed <==> forall j :: i <= j < |items| ==> load(items[j]).Some?)
      && (forall j :: i <= j < |items| ==> r.items[j] == items[j] || (load(items[j]).Some? && r.items[j] == load(items[j]).value))
      && (r.completed ==> forall j :: i <= j < |items| ==> r.items[j] == load(items[j]).value)
  {
    if i < |items| && load(items[i]).Some? {
      var next := items[i := load(items[i]).value];
      LoadFromEffect(next, i + 1, load);
      assert forall j :: i < j < |items| ==> next[j] == items[j];
      assert next[..i] == items[..i];
    }
  }

  /**
   * What a load does to the list: it completes exactly when no item throws;
   * each item ends up either as it was or as `LoadItem` makes it, and after
   * a completed load every item is as `LoadItem` makes it.
   */
  lemma LoadValuesEffect(items: seq<Item>, arr: JArray, ps: Option<Protector>)
    ensures var r := LoadValues(items, arr, ps);
      && |r.items| == |items|
      && (r.completed <==> forall i :: 0 <= i < |items| ==> LoadItem(items[i], arr, ps).Some?)
      && (forall i :: 0 <= i < |items| ==>
            r.items[i] == items[i] || (LoadItem(items[i], arr, ps).Some? && r.items[i] == LoadItem(items[i], arr, ps).value))
      && (r.completed ==> forall i :: 0 <= i < |items| ==> r.items[i] == LoadItem(items[i], arr, ps).value)
  {
    LoadFromEffect(items, 0, it => LoadItem(it, arr, ps));
  }

  /** Loading never changes a DisplayInfo or DisplayImage item, and never an item the payload does not name. */
  lemma LoadKeepsDisplayAndUnnamedItems(items: seq<Item>, arr: JArray, ps: Option<Protector>, i: nat)
    requires i < |items|
    requires items[i].Type() == DisplayInfo || items[i].Type() == DisplayImage
          || forall obj :: obj in arr ==> StringValue(obj, "id") != Str(items[i].ID())
    ensures LoadValues(items, arr, ps).items[i] == items[i]
  {
    var k := FirstIndexById(arr, items[i].ID());
    if k >= 0 && Persisted(items[i]) {
      assert arr[k] in arr;
    }
    assert LoadItem(items[i], arr, ps) == Some(items[i]);
    LoadValuesEffect(items, arr, ps);
  }

  /** A password input whose submitted value is the sentinel keeps its stored secret. */
  lemma SentinelKeepsPassword(items: seq<Item>, arr: JArray, ps: Option<Protector>, i: nat)
    requires i < |items| && items[i].Type() == InputString && items[i].IsPassword()
    requires FirstIndexById(arr, items[i].ID()) >= 0
    requires StringValue(arr[FirstIndexById(arr, items[i].ID())], "value") == Str(PasswordReplacement)
    ensures LoadValues(items, arr, ps).items[i] == items[i]
  {
    LoadValuesEffect(items, arr, ps);
  }

  /**
   * After a completed load, a password input whose first matching object
   * carries anything but the sentinel holds `UnProtect(value)` with a
   * protector and `value` itself without one; any other input string holds
   * the submitted value as it is.
   */
  lemma LoadStoresSubmittedInput(items: seq<Item>, arr: JArray, ps: Option<Protector>, i: nat)
    requires i < |items| && items[i].Type() == InputString
    requires FirstIndexById(arr, items[i].ID()) >= 0
    requires LoadValues(items, arr, ps).completed
    ensures var submitted := StringValue(arr[FirstIndexById(arr, items[i].ID())], "value");
      LoadValues(items, arr, ps).items[i] == items[i].(value :=
         if !items[i].IsPassword() then submitted
         else if submitted == Str(PasswordReplacement) then items[i].value
         else if ps.Some? then ps.value.unprotect(submitted)
         else submitted)
  {
    LoadValuesEffect(items, arr, ps);
  }

  lemma {:induction false} FirstIndexByIdAppend(arr: JArray, extra: JArray, id: string)
    ensures FirstIndexById(arr + extra, id)
         == if FirstIndexById(arr, id) >= 0 then FirstIndexById(arr, id)
            else if FirstIndexById(extra, id) >= 0 then |arr| + FirstIndexById(extra, id)
            else -1
  {
    if arr == [] {
      assert arr + extra == extra;
    } else if StringValue(arr[0], "id") != Str(id) {
      assert (arr + extra)[0] == arr[0];
      assert (arr + extra)[1..] == arr[1..] + extra;
      FirstIndexByIdAppend(arr[1..], extra, id);
    }
  }

  lemma {:induction false} LoadFromPointwise(items: seq<Item>, i: nat, load: Item -> Option<Item>, load': Item -> Option<Item>)
    requires i <= |items|
    requires forall j :: i <= j < |items| ==> load(items[j]) == load'(items[j])
    decreases |items| - i
    ensures LoadFrom(items, i, load) == LoadFrom(items, i, load')
  {
    if i < |items| && load(items[i]).Some? {
      var next := items[i := load(items[i]).value];
      assert forall j :: i < j < |items| ==> next[j] == items[j];
      LoadFromPointwise(next, i + 1, load, load');
    }
  }

  /**
   * Only the first object with an item's ID matters, and objects whose ID no
   * item has are ignored: appending objects changes nothing for items that
   * already have a match or that the appended objects do not name.
   */
  lemma LoadUsesFirstMatchOnly(items: seq<Item>, arr: JArray, extra: JArray, ps: Option<Protector>)
    requires forall it :: it in items ==>
      FirstIndexById(arr, it.ID()) >= 0 || forall obj :: obj in extra ==> StringValue(obj, "id") != Str(it.ID())
    ensures LoadValues(items, arr + extra, ps) == LoadValues(items, arr, ps)
  {
    forall i | 0 <= i < |items|
      ensures LoadItem(items[i], arr + extra, ps) == LoadItem(items[i], arr, ps)
    {
      var id := items[i].ID();
      FirstIndexByIdAppend(arr, extra, id);
      if FirstIndexById(arr, id) >= 0 {
        assert (arr + extra)[FirstIndexById(arr, id)] == arr[FirstIndexById(arr, id)];
      } else {
        assert items[i] in items;
      }
    }
    LoadFromPointwise(items, 0, it => LoadItem(it, arr + extra, ps), it => LoadItem(it, arr, ps));
  }

  // ---------------------------------------------------------------------
  // Round trips

  /** No two items of the list share an ID (the source does not check this). */
  predicate UniqueIds(items: seq<Item>) {
    forall i, j :: 0 <= i < j < |items| ==> items[i].ID() != items[j].ID()
  }

  /** In an array `ToJson` built from a list with unique IDs, an item's first match is its own object. */
  lemma {:induction false} OwnEntryFound(g: seq<Item>, ps: Option<Protector>, forDisplay: bool, dataUrl: seq<byte> -> string, arr: JArray, it: Item)
    requires UniqueIds(g) && it in g
    requires |arr| == |g|
    requires forall k :: 0 <= k < |g| ==> arr[k] == Entry(g[k], ps, forDisplay, dataUrl)
    ensures FirstIndexById(arr, it.ID()) >= 0
    ensures arr[FirstIndexById(arr, it.ID())] == Entry(it, ps, forDisplay, dataUrl)
  {
    var m :| 0 <= m < |g| && g[m] == it;
    assert StringValue(arr[m], "id") == Str(it.ID());
    var k := FirstIndexById(arr, it.ID());
    assert k >= 0;
    assert StringValue(arr[k], "id") == Str(g[k].ID());
    assert k == m;
  }

  /**
   * What the persisted round trip gives back for one item: the item itself,
   * with three exceptions the source has. A null password comes back as "".
   * A Recaptcha item loses its value and cookie, since only `sitekey` is
   * written. A hidden item named "password" comes back as its ciphertext: it
   * is protected on the way out but not unprotected on the way in.
   */
  function Restored(it: Item, ps: Option<Protector>): Item {
    match it
    case StringItem(kind, _, value, _, _) =>
      if kind == Recaptcha then it.(value := Null, cookie := Null)
      else if kind == DisplayInfo || !it.IsPassword() then it
      else if value == Null then it.(value := Str(""))
      else if kind == HiddenData && value != Str("") && ps.Some? then it.(value := Str(ps.value.protect(value.s)))
      else it
    case _ => it
  }

  /** One persisted item loaded from its own object comes back as `Restored`. */
  lemma ApplyOwnPersistedObject(it: Item, ps: Option<Protector>, dataUrl: seq<byte> -> string)
    requires Persisted(it)
    requires ps.Some? ==> ProtectorInverts(ps.value)
    ensures ApplyObject(it, Entry(it, ps, false, dataUrl), ps) == Some(Restored(it, ps))
  {
    var obj := Entry(it, ps, false, dataUrl);
    if it.StringItem? && it.kind == InputString && it.IsPassword() {
      var v := EmittedValue(it, ps, false);
      assert StringValue(obj, "value") == v;
      if ps.Some? && v == Str(PasswordReplacement) {
        // the ciphertext happens to be the sentinel: the stored value is kept
        assert it.value != Null && it.value != Str("");
      }
    }
  }

  /**
   * Round trip of the persisted form: loading `ToJson(ps, false)` back into
   * the same items completes, and every item comes back as `Restored` says.
   */
  lemma PersistedRoundTrip(items: seq<Item>, ps: Option<Protector>, dataUrl: seq<byte> -> string)
    requires UniqueIds(GetItems(items, false))
    requires ps.Some? ==> ProtectorInverts(ps.value)
    ensures LoadValues(items, ToJson(items, ps, false, dataUrl), ps).completed
    ensures forall i :: 0 <= i < |items| ==>
      LoadValues(items, ToJson(items, ps, false, dataUrl), ps).items[i] == Restored(items[i], ps)
  {
    var arr := ToJson(items, ps, false, dataUrl);
    var g := GetItems(items, false);
    forall i | 0 <= i < |items|
      ensures LoadItem(items[i], arr, ps) == Some(Restored(items[i], ps))
    {
      if Persisted(items[i]) {
        assert items[i] in items;
        OwnEntryFound(g, ps, false, dataUrl, arr, items[i]);
        ApplyOwnPersistedObject(items[i], ps, dataUrl);
      }
    }
    LoadValuesEffect(items, arr, ps);
  }

  /** Loading an item's own display object never throws, and keeps a non-empty password input. */
  lemma ApplyOwnDisplayObject(it: Item, ps: Option<Protector>, dataUrl: seq<byte> -> string)
    ensures ApplyObject(it, Entry(it, ps, true, dataUrl), ps).Some?
    ensures it.Type() == InputString && it.IsPassword() && !IsNullOrEmpty(it.value) ==>
      ApplyObject(it, Entry(it, ps, true, dataUrl), ps) == Some(it)
  {
  }

  /**
   * Loading the display form back completes and leaves every non-empty
   * password input as it was: the sentinel is written and then ignored.
   */
  lemma DisplayRoundTripKeepsPasswords(items: seq<Item>, ps: Option<Protector>, dataUrl: seq<byte> -> string, i: nat)
    requires UniqueIds(items)
    requires i < |items| && items[i].Type() == InputString && items[i].IsPassword() && !IsNullOrEmpty(items[i].value)
    ensures LoadValues(items, ToJson(items, ps, true, dataUrl), ps).completed
    ensures LoadValues(items, ToJson(items, ps, true, dataUrl), ps).items[i] == items[i]
  {
    var arr := ToJson(items, ps, true, dataUrl);
    forall j | 0 <= j < |items|
      ensures LoadItem(items[j], arr, ps).Some?
      ensures j == i ==> LoadItem(items[j], arr, ps) == Some(items[j])
    {
      if Persisted(items[j]) {
        assert items[j] in items;
        OwnEntryFound(items, ps, true, dataUrl, arr, items[j]);
        ApplyOwnDisplayObject(items[j], ps, dataUrl);
      }
    }
    LoadValuesEffect(items, arr, ps);
  }

  // ---------------------------------------------------------------------
  // The schema object

  /** `ConfigurationData`: the item objects of one indexer, in declaration order. */
  class Configuration {
    var items: seq<Item>

    /** A schema with the declared items of a concrete indexer, followed by the inherited `CookieHeader`. */
    constructor (declared: seq<Item>)
      ensures items == declared + [CookieHeader]
    {
      items := declared + [CookieHeader];
    }

    /**
     * `LoadValuesFromJson(json, ps)`: visits the persisted items in order and
     * assigns each one from the first payload object with its ID.
     */
    method LoadValuesFromJson(arr: JArray, ps: Option<Protector>) returns (completed: bool)
      modifies this
      ensures LoadResult(items, completed) == LoadValues(old(items), arr, ps)
    {
      ghost var orig := items;
      var i := 0;
      while i < |items|
        invariant 0 <= i <= |items|
        invariant LoadFrom(items, i, it => LoadItem(it, arr, ps)) == LoadValues(orig, arr, ps)
      {
        var loaded := LoadItem(items[i], arr, ps);
        if loaded.None? {
          return false;
        }
        items := items[i := loaded.value];
        i := i + 1;
      }
      return true;
    }
  }
}
