/**
 * The model picker of the client (client/src/components/ai-models.tsx): which models are locked
 * behind the VIP role, what choosing one does, and the icon and category badge each card shows.
 * The lock is enforced only here: no server route reads `requiresVip`.
 */
module AiModels {
  import opened Wrappers
  import opened Schema
  import opened RouteModel

  /** The icons a card can show. */
  datatype Icon = Brain | Shield | Sparkles | Palette | Mountain | Code

  /** `modelIcons`: the icon of each seeded model's name. */
  const ModelIcons: map<string, Icon> :=
    map["gpt-4" := Brain, "claude" := Shield, "gemini" := Sparkles,
        "dall-e" := Palette, "midjourney" := Mountain, "codex" := Code]

  /** The colour classes and label of a category badge. */
  datatype CategoryInfo = CategoryInfo(color: string, caption: string)

  /** `modelCategories`. */
  const ModelCategories: map<string, CategoryInfo> :=
    map["text" := CategoryInfo("bg-blue-100 text-blue-800", "文本"),
        "image" := CategoryInfo("bg-purple-100 text-purple-800", "图像"),
        "code" := CategoryInfo("bg-green-100 text-green-800", "代码"),
        "multimodal" := CategoryInfo("bg-orange-100 text-orange-800", "多模态")]

  /**
   * The names every object literal answers for without listing them: the members of
   * `Object.prototype` (section 20.1.3 of ECMA-262, with the legacy accessors and `__proto__` of
   * its Annex B). Each of them is a function or an object, so it is never falsy.
   */
  const InheritedNames: set<string> :=
    {"constructor", "hasOwnProperty", "isPrototypeOf", "propertyIsEnumerable", "toLocaleString",
     "toString", "valueOf", "__proto__", "__defineGetter__", "__defineSetter__",
     "__lookupGetter__", "__lookupSetter__"}

  /** What `modelIcons[model.name] || Brain` yields: an icon, or a member inherited from `Object.prototype`. */
  datatype IconLookup = Listed(icon: Icon) | Inherited(key: string)

  /** `modelIcons[model.name] || Brain`. */
  function IconFor(name: string): IconLookup {
    if name in ModelIcons then Listed(ModelIcons[name])
    else if name in InheritedNames then Inherited(name)
    else Listed(Brain)
  }

  /**
   * What `modelCategories[model.category || 'text']` gives the card: a listed badge; a member
   * inherited from `Object.prototype`, which has neither `color` nor `label`, so the badge renders
   * blank; or `undefined`, which makes the card's render throw when it reads the badge's colour.
   */
  datatype BadgeLookup = Badge(info: CategoryInfo) | Blank | Undefined

  /** `modelCategories[model.category || 'text']`. */
  function CategoryFor(category: Option<string>): BadgeLookup {
    var key := if category.None? || category.value == "" then "text" else category.value;
    if key in ModelCategories then Badge(ModelCategories[key])
    else if key in InheritedNames then Blank
    else Undefined
  }

  /**
   * Every seeded model has an icon of its own, the six pairwise distinct; a name `Object.prototype`
   * carries yields that inherited member instead of an icon; any other name falls back to the
   * brain (as "gpt-4" itself shows).
   */
  lemma IconsOfSeededModels(name: string)
    ensures IconFor(name).Inherited? <==> name in InheritedNames
    ensures name !in DefaultModelNames && name !in InheritedNames ==> IconFor(name) == Listed(Brain)
    ensures forall i :: 0 <= i < |DefaultModelNames| ==> IconFor(DefaultModelNames[i]).Listed?
    ensures forall i, j :: 0 <= i < j < |DefaultModelNames| ==>
              IconFor(DefaultModelNames[i]) != IconFor(DefaultModelNames[j])
  {
    assert forall i :: 0 <= i < |DefaultModelNames| ==>
      IconFor(DefaultModelNames[i]) == Listed([Brain, Shield, Sparkles, Palette, Mountain, Code][i]);
  }

  /**
   * A missing or empty category reads as "text"; a badge exists exactly for the four listed
   * categories, a name `Object.prototype` carries renders a blank one, and any other category
   * leaves the lookup `undefined`; every seeded model's category is one of the four.
   */
  lemma CategoryFallback(category: Option<string>)
    ensures category.None? || category == Some("") ==> CategoryFor(category) == Badge(CategoryInfo("bg-blue-100 text-blue-800", "文本"))
    ensures category.Some? && category.value != "" ==>
              && (CategoryFor(category).Badge? <==> category.value in ["text", "image", "code", "multimodal"])
              && (CategoryFor(category).Blank? <==> category.value in InheritedNames)
              && (CategoryFor(category).Undefined? <==>
                    category.value !in ["text", "image", "code", "multimodal"] && category.value !in InheritedNames)
    ensures forall i :: 0 <= i < |DefaultModels| ==> CategoryFor(DefaultModels[i].category).Badge?
  {
  }

  /** The card is locked: the model needs VIP and the signed-in user (if any) is neither vip nor admin. */
  predicate IsLocked(model: AiModel, user: Option<User>) {
    model.requiresVip && !(user.Some? && Unlimited(user.value.role))
  }

  /** A toast shown by the picker. */
  datatype Toast = Toast(title: string, description: string, destructive: bool)

  /** What choosing a card does: the `onSelectModel` calls made, in order, and the toast shown. */
  datatype Selection = Selection(calls: seq<int>, toast: Toast)

  /** `handleSelectModel(model)`. */
  function HandleSelectModel(model: AiModel, user: Option<User>): (r: Selection)
    ensures r.calls == [] <==> IsLocked(model, user)
    ensures !IsLocked(model, user) ==> r.calls == [model.id] && !r.toast.destructive
    ensures IsLocked(model, user) ==> r.toast.destructive
  {
    if model.requiresVip && (user.None? || (user.value.role != "vip" && user.value.role != "admin")) then
      Selection([], Toast("需要VIP权限", model.displayName + " 需要VIP会员才能使用，请先升级您的账户。", true))
    else
      Selection([model.id], Toast("模型已选择", "已选择 " + model.displayName + "，可以开始对话了！", false))
  }

  /**
   * The lock follows the same roles the server exempts from the daily quota: signed out, every
   * VIP model is locked; a model without the flag is never locked; vip and admin unlock all.
   */
  lemma LockMatchesRoles(model: AiModel, user: Option<User>)
    ensures user.None? ==> (IsLocked(model, user) <==> model.requiresVip)
    ensures !model.requiresVip ==> !IsLocked(model, user)
    ensures user.Some? ==> (IsLocked(model, user) <==> model.requiresVip && user.value.role != "vip" && user.value.role != "admin")
    ensures user.Some? && model.requiresVip ==> (IsLocked(model, user) <==> !Unlimited(user.value.role))
  {
  }

  /** Of the seeded models exactly "gemini", "dall-e" and "midjourney" need VIP. */
  lemma SeededLocks(i: int)
    requires 0 <= i < |DefaultModels|
    ensures DefaultModels[i].requiresVip == Some(true) <==> DefaultModels[i].name in ["gemini", "dall-e", "midjourney"]
  {
  }
}
