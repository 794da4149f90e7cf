/** The rules of the variant provider, as functions over the stored catalogue: when a margin is
    present on a new variant, which fields of an update overwrite the stored row, when the
    modifier list is replaced, and which error each request meets first. */
module VariantModel {
  import opened Wrappers
  import opened Http
  import opened ArrayCompare

  /** A database identifier (a uuid string). */
  type Id = string

  /** A clock reading. */
  type Time = int

  const UpdateForbidden := "You do not have access to update this variant"
  const DeleteForbidden := "You do not have permission to delete this variant."
  const CreateFailed := "Failed to create variant"
  const Deleted := "Variant deleted successfully."

  function VariantNotFound(id: Id): string {
    "Variant with ID " + id + " not found."
  }

  function UpdateFailed(id: Id): string {
    "Failed to update variant with ID " + id
  }

  /** The acting user; `business` is absent for a user not attached to one. */
  datatype User = User(id: Id, business: Option<Id>)

  /** An item row, with the business it belongs to when that relation is set. */
  datatype Item = Item(business: Option<Id>)

  /** A stock row of a variant. */
  datatype Sku = Sku(sku: Option<string>, quantity: Option<real>, unit: Option<string>, lowStockAlert: Option<real>,
                     createdBy: Id, updatedBy: Id)

  /** The stock part of a request; an absent key is `None`. */
  datatype SkuDto = SkuDto(sku: Option<string>, quantity: Option<real>, unit: Option<string>, lowStockAlert: Option<real>)

  /** Whether a margin is stored, and from which prices it was computed; the percentage itself is
      floating-point arithmetic and not part of this model. */
  datatype Margin = NoMargin | MarginOf(sellingPrice: real, purchasePrice: real)

  datatype Variant = Variant(
    name: string,
    image: string,
    sellingPrice: real,
    purchasePrice: Option<real>,
    margin: Margin,
    stock: Option<Sku>,
    barcode: Option<string>,
    manufactureDate: Option<string>,
    expireDate: Option<string>,
    expireDateAlert: Option<string>,
    tax: Option<string>,
    internalNote: Option<string>,
    modifiers: seq<Id>,
    item: Option<Id>,
    createdBy: Id,
    updatedBy: Id,
    deletedAt: Option<Time>)

  datatype CreateVariantDto = CreateVariantDto(
    name: string,
    image: Option<string>,
    sellingPrice: real,
    purchasePrice: Option<real>,
    barcode: Option<string>,
    manufactureDate: Option<string>,
    expireDate: Option<string>,
    expireDateAlert: Option<string>,
    tax: Option<string>,
    internalNote: Option<string>,
    sku: Option<SkuDto>,
    modifiers: Option<seq<Id>>)

  /** Every field of the creation request, each optional. */
  datatype UpdateVariantDto = UpdateVariantDto(
    name: Option<string>,
    image: Option<string>,
    sellingPrice: Option<real>,
    purchasePrice: Option<real>,
    barcode: Option<string>,
    manufactureDate: Option<string>,
    expireDate: Option<string>,
    expireDateAlert: Option<string>,
    tax: Option<string>,
    internalNote: Option<string>,
    sku: Option<SkuDto>,
    modifiers: Option<seq<Id>>)

  /** The rows the provider reads and writes; `modifierIds` lists the modifier rows in stored order. */
  datatype Catalog = Catalog(variants: map<Id, Variant>, items: map<Id, Item>, modifierIds: seq<Id>)

  /** A JavaScript string is truthy when it is not empty. */
  predicate TruthyStr(s: Option<string>) {
    s.Some? && s.value != ""
  }

  /** A JavaScript number is truthy when it is not zero. */
  predicate TruthyNum(n: Option<real>) {
    n.Some? && n.value != 0.0
  }

  /** `modifiers?.length > 0` */
  predicate NonEmptyList(ids: Option<seq<Id>>) {
    ids.Some? && |ids.value| > 0
  }

  predicate Distinct(s: seq<Id>) {
    forall i, j :: 0 <= i < j < |s| ==> s[i] != s[j]
  }

  /** A row the ORM finds: stored and not soft-deleted. */
  predicate Visible(db: Catalog, id: Id) {
    id in db.variants && db.variants[id].deletedAt.None?
  }

  /** `findAllByIds`: the stored modifiers whose id is requested, in stored order, each once. */
  function FindAllByIds(stored: seq<Id>, ids: seq<Id>): (r: seq<Id>)
    ensures forall x :: x in r <==> x in stored && x in ids
    ensures Distinct(stored) ==> Distinct(r)
  {
    if stored == [] then []
    else
      var rest := FindAllByIds(stored[1..], ids);
      assert forall x :: x in stored <==> x == stored[0] || x in stored[1..];
      if stored[0] in ids then [stored[0]] + rest else rest
  }

  /** The stock row created from a request's stock part. */
  function NewSku(dto: SkuDto, user: Id): Sku {
    Sku(dto.sku, dto.quantity, dto.unit, dto.lowStockAlert, user, user)
  }

  /** `Object.assign(stock, {...dto, updatedBy: user})`: the keys the request carries overwrite. */
  function MergeSku(stock: Sku, dto: SkuDto, user: Id): (r: Sku)
    ensures r.createdBy == stock.createdBy && r.updatedBy == user
    ensures dto.sku.Some? ==> r.sku == dto.sku
    ensures dto.sku.None? ==> r.sku == stock.sku
    ensures dto.quantity.Some? ==> r.quantity == dto.quantity
    ensures dto.quantity.None? ==> r.quantity == stock.quantity
    ensures dto.unit.Some? ==> r.unit == dto.unit
    ensures dto.unit.None? ==> r.unit == stock.unit
    ensures dto.lowStockAlert.Some? ==> r.lowStockAlert == dto.lowStockAlert
    ensures dto.lowStockAlert.None? ==> r.lowStockAlert == stock.lowStockAlert
  {
    Sku(
      if dto.sku.Some? then dto.sku else stock.sku,
      if dto.quantity.Some? then dto.quantity else stock.quantity,
      if dto.unit.Some? then dto.unit else stock.unit,
      if dto.lowStockAlert.Some? then dto.lowStockAlert else stock.lowStockAlert,
      stock.createdBy,
      user)
  }

  /** The SKU step of an update: a new stock row when there is none, otherwise a merge. */
  function PatchStock(stock: Option<Sku>, dto: Option<SkuDto>, user: Id): (r: Option<Sku>)
    ensures dto.None? ==> r == stock
    ensures dto.Some? && stock.None? ==> r == Some(NewSku(dto.value, user))
    ensures dto.Some? && stock.Some? ==> r == Some(MergeSku(stock.value, dto.value, user))
    ensures dto.Some? ==> r.Some? && r.value.updatedBy == user
  {
    match dto
    case None => stock
    case Some(d) =>
      match stock
      case None => Some(NewSku(d, user))
      case Some(s) => Some(MergeSku(s, d, user))
  }

  /** The modifier step of an update: the list is replaced by the requested stored modifiers only
      when a non-empty list is requested that differs from the current ids as a multiset. */
  function PatchModifiers(current: seq<Id>, requested: Option<seq<Id>>, stored: seq<Id>): (r: seq<Id>)
    ensures !NonEmptyList(requested) ==> r == current
    ensures NonEmptyList(requested) && multiset(current) == multiset(requested.value) ==> r == current
    ensures NonEmptyList(requested) && multiset(current) != multiset(requested.value) ==>
              r == FindAllByIds(stored, requested.value)
  {
    if NonEmptyList(requested) then
      if !AreArraysEqual(current, requested.value) then FindAllByIds(stored, requested.value) else current
    else current
  }

  /** The basic fields of an update: each truthy request field overwrites, others leave the row. */
  function PatchBasics(v: Variant, dto: UpdateVariantDto): Variant {
    v.(
      name := if TruthyStr(dto.name) then dto.name.value else v.name,
      image := if TruthyStr(dto.image) then dto.image.value else v.image,
      sellingPrice := if TruthyNum(dto.sellingPrice) then dto.sellingPrice.value else v.sellingPrice,
      purchasePrice := if TruthyNum(dto.purchasePrice) then dto.purchasePrice else v.purchasePrice,
      barcode := if TruthyStr(dto.barcode) then dto.barcode else v.barcode,
      manufactureDate := if TruthyStr(dto.manufactureDate) then dto.manufactureDate else v.manufactureDate,
      expireDate := if TruthyStr(dto.expireDate) then dto.expireDate else v.expireDate,
      expireDateAlert := if TruthyStr(dto.expireDateAlert) then dto.expireDateAlert else v.expireDateAlert,
      tax := if TruthyStr(dto.tax) then dto.tax else v.tax,
      internalNote := if TruthyStr(dto.internalNote) then dto.internalNote else v.internalNote)
  }

  /** The row an accepted update stores. */
  function ApplyUpdate(v: Variant, dto: UpdateVariantDto, user: User, stored: seq<Id>): (r: Variant)
    ensures r.(margin := v.margin, stock := v.stock, modifiers := v.modifiers, updatedBy := v.updatedBy) == PatchBasics(v, dto)
    ensures TruthyNum(dto.sellingPrice) && TruthyNum(dto.purchasePrice) ==>
              r.margin == MarginOf(dto.sellingPrice.value, dto.purchasePrice.value)
    ensures !(TruthyNum(dto.sellingPrice) && TruthyNum(dto.purchasePrice)) ==> r.margin == v.margin
    ensures dto.sku.None? ==> r.stock == v.stock
    ensures dto.sku.Some? && v.stock.None? ==> r.stock == Some(NewSku(dto.sku.value, user.id))
    ensures dto.sku.Some? && v.stock.Some? ==> r.stock == Some(MergeSku(v.stock.value, dto.sku.value, user.id))
    ensures NonEmptyList(dto.modifiers) && multiset(v.modifiers) != multiset(dto.modifiers.value) ==>
              r.modifiers == FindAllByIds(stored, dto.modifiers.value)
    ensures !NonEmptyList(dto.modifiers) || multiset(v.modifiers) == multiset(dto.modifiers.value) ==>
              r.modifiers == v.modifiers
    ensures r.item == v.item && r.createdBy == v.createdBy && r.deletedAt == v.deletedAt && r.updatedBy == user.id
  {
    var basics := PatchBasics(v, dto);
    basics.(
      margin := if TruthyNum(dto.sellingPrice) && TruthyNum(dto.purchasePrice)
                then MarginOf(dto.sellingPrice.value, dto.purchasePrice.value) else v.margin,
      stock := PatchStock(v.stock, dto.sku, user.id),
      modifiers := PatchModifiers(v.modifiers, dto.modifiers, stored),
      updatedBy := user.id)
  }

  /** updateVariantById: NotFound unless a live variant `id` of item `itemId` exists; then a
      missing business on either side is a failure reported as RequestTimeout; then Forbidden
      across businesses; otherwise the updated row is stored and returned. */
  function UpdateVariant(db: Catalog, id: Id, itemId: Id, dto: UpdateVariantDto, user: User): (r: (Catalog, Result<Variant, Exception>))
    ensures r.1.Err? ==> r.0 == db
    ensures r.1.Ok? ==> r.0 == db.(variants := db.variants[id := r.1.value])
    ensures r.1.Ok? ==> id in db.variants && r.1.value == ApplyUpdate(db.variants[id], dto, user, db.modifierIds)
  {
    if !Visible(db, id) || db.variants[id].item != Some(itemId) || itemId !in db.items then
      (db, Err(NotFound(VariantNotFound(id))))
    else
      var v := db.variants[id];
      var business := db.items[itemId].business;
      if business.None? || user.business.None? then (db, Err(RequestTimeout(UpdateFailed(id))))
      else if business.value != user.business.value then (db, Err(Forbidden(UpdateForbidden)))
      else
        var updated := ApplyUpdate(v, dto, user, db.modifierIds);
        (db.(variants := db.variants[id := updated]), Ok(updated))
  }

  /** deleteVariantById: NotFound for an unknown or already deleted id, Forbidden for anyone but
      the creator, otherwise the row is soft-deleted at `now`. */
  function DeleteVariant(db: Catalog, variantId: Id, userId: Id, now: Time): (r: (Catalog, Result<string, Exception>))
    ensures r.1.Err? ==> r.0 == db
    ensures r.1.Ok? ==>
              && variantId in db.variants
              && r.0 == db.(variants := db.variants[variantId := db.variants[variantId].(deletedAt := Some(now))])
  {
    if !Visible(db, variantId) then (db, Err(NotFound(VariantNotFound(variantId))))
    else
      var v := db.variants[variantId];
      if v.createdBy != userId then (db, Err(Forbidden(DeleteForbidden)))
      else (db.(variants := db.variants[variantId := v.(deletedAt := Some(now))]), Ok(Deleted))
  }

  /** createVariant: the new row built from the request, or the one failure it reports when the
      request carries no stock part. */
  function NewVariant(dto: CreateVariantDto, user: User, stored: seq<Id>): (r: Result<Variant, Exception>)
    ensures r.Err? <==> dto.sku.None?
    ensures r.Err? ==> r.error == RequestTimeout(CreateFailed)
    ensures r.Ok? ==>
      && (r.value.margin.MarginOf? <==> TruthyNum(dto.purchasePrice) && TruthyNum(Some(dto.sellingPrice)))
      && r.value.image == (if TruthyStr(dto.image) then dto.image.value else "")
      && r.value.stock == Some(NewSku(dto.sku.value, user.id))
      && r.value.createdBy == user.id && r.value.updatedBy == user.id
      && r.value.deletedAt.None? && r.value.item.None?
      && (forall m :: m in r.value.modifiers <==> NonEmptyList(dto.modifiers) && m in stored && m in dto.modifiers.value)
  {
    match dto.sku
    case None => Err(RequestTimeout(CreateFailed))
    case Some(sku) =>
      Ok(Variant(
        dto.name,
        if TruthyStr(dto.image) then dto.image.value else "",
        dto.sellingPrice,
        dto.purchasePrice,
        if TruthyNum(dto.purchasePrice) && TruthyNum(Some(dto.sellingPrice))
        then MarginOf(dto.sellingPrice, dto.purchasePrice.value) else NoMargin,
        Some(NewSku(sku, user.id)),
        dto.barcode,
        dto.manufactureDate,
        dto.expireDate,
        dto.expireDateAlert,
        dto.tax,
        dto.internalNote,
        if NonEmptyList(dto.modifiers) then FindAllByIds(stored, dto.modifiers.value) else [],
        None,
        user.id,
        user.id,
        None))
  }

  // ---------------------------------------------------------------------------------------------
  // Properties

  /** Only truthy request fields reach the row, and every truthy one does; everything else in it
      is kept. */
  lemma OnlyTruthyFieldsOverwrite(v: Variant, dto: UpdateVariantDto, user: User, stored: seq<Id>)
    ensures var u := ApplyUpdate(v, dto, user, stored);
      && (u.name != v.name ==> TruthyStr(dto.name) && u.name == dto.name.value)
      && (u.image != v.image ==> TruthyStr(dto.image) && u.image == dto.image.value)
      && (u.sellingPrice != v.sellingPrice ==> TruthyNum(dto.sellingPrice) && u.sellingPrice == dto.sellingPrice.value)
      && (u.purchasePrice != v.purchasePrice ==> TruthyNum(dto.purchasePrice) && u.purchasePrice == dto.purchasePrice)
      && (u.barcode != v.barcode ==> TruthyStr(dto.barcode) && u.barcode == dto.barcode)
      && (u.manufactureDate != v.manufactureDate ==> TruthyStr(dto.manufactureDate) && u.manufactureDate == dto.manufactureDate)
      && (u.expireDate != v.expireDate ==> TruthyStr(dto.expireDate) && u.expireDate == dto.expireDate)
      && (u.expireDateAlert != v.expireDateAlert ==> TruthyStr(dto.expireDateAlert) && u.expireDateAlert == dto.expireDateAlert)
      && (u.tax != v.tax ==> TruthyStr(dto.tax) && u.tax == dto.tax)
      && (u.internalNote != v.internalNote ==> TruthyStr(dto.internalNote) && u.internalNote == dto.internalNote)
      && (u.margin != v.margin ==> TruthyNum(dto.sellingPrice) && TruthyNum(dto.purchasePrice))
      && (u.stock != v.stock ==> dto.sku.Some?)
      && (u.modifiers != v.modifiers ==> NonEmptyList(dto.modifiers) && multiset(v.modifiers) != multiset(dto.modifiers.value))
      && u.item == v.item && u.createdBy == v.createdBy && u.deletedAt == v.deletedAt
      && u.updatedBy == user.id
    ensures var u := ApplyUpdate(v, dto, user, stored);
      && (TruthyStr(dto.name) ==> u.name == dto.name.value)
      && (TruthyStr(dto.image) ==> u.image == dto.image.value)
      && (TruthyNum(dto.sellingPrice) ==> u.sellingPrice == dto.sellingPrice.value)
      && (TruthyNum(dto.purchasePrice) ==> u.purchasePrice == dto.purchasePrice)
      && (TruthyStr(dto.barcode) ==> u.barcode == dto.barcode)
      && (TruthyStr(dto.manufactureDate) ==> u.manufactureDate == dto.manufactureDate)
      && (TruthyStr(dto.expireDate) ==> u.expireDate == dto.expireDate)
      && (TruthyStr(dto.expireDateAlert) ==> u.expireDateAlert == dto.expireDateAlert)
      && (TruthyStr(dto.tax) ==> u.tax == dto.tax)
      && (TruthyStr(dto.internalNote) ==> u.internalNote == dto.internalNote)
      && (TruthyNum(dto.sellingPrice) && TruthyNum(dto.purchasePrice) ==>
            u.margin == MarginOf(dto.sellingPrice.value, dto.purchasePrice.value))
      && (dto.sku.Some? ==> u.stock.Some? && u.stock.value.updatedBy == user.id)
  {
  }

  /** A request whose fields are all absent or falsy changes nothing but `updatedBy`. */
  lemma EmptyUpdateOnlyStampsUser(v: Variant, dto: UpdateVariantDto, user: User, stored: seq<Id>)
    requires !TruthyStr(dto.name) && !TruthyStr(dto.image) && !TruthyStr(dto.barcode)
    requires !TruthyStr(dto.manufactureDate) && !TruthyStr(dto.expireDate) && !TruthyStr(dto.expireDateAlert)
    requires !TruthyStr(dto.tax) && !TruthyStr(dto.internalNote)
    requires !TruthyNum(dto.sellingPrice) && !TruthyNum(dto.purchasePrice)
    requires dto.sku.None? && !NonEmptyList(dto.modifiers)
    ensures ApplyUpdate(v, dto, user, stored) == v.(updatedBy := user.id)
  {
  }

  /** The stored modifiers of a request that names each stored modifier once are exactly the request. */
  lemma {:induction false} FindAllByIdsExact(stored: seq<Id>, ids: seq<Id>)
    requires Distinct(stored) && Distinct(ids)
    requires forall x :: x in ids ==> x in stored
    ensures multiset(FindAllByIds(stored, ids)) == multiset(ids)
  {
    var r := FindAllByIds(stored, ids);
    forall x ensures multiset(r)[x] == multiset(ids)[x] {
      DistinctCount(r, x);
      DistinctCount(ids, x);
    }
  }

  lemma {:induction false} DistinctCount(s: seq<Id>, x: Id)
    requires Distinct(s)
    ensures multiset(s)[x] == if x in s then 1 else 0
    decreases |s|
  {
    if s != [] {
      assert s == [s[0]] + s[1..];
      assert Distinct(s[1..]) by {
        forall i, j | 0 <= i < j < |s[1..]| ensures s[1..][i] != s[1..][j] {
          assert s[1..][i] == s[i + 1] && s[1..][j] == s[j + 1];
        }
      }
      DistinctCount(s[1..], x);
      if s[0] == x {
        assert x !in s[1..] by {
          forall k | 0 <= k < |s[1..]| ensures s[1..][k] != x {
            assert s[1..][k] == s[k + 1];
          }
        }
      }
    }
  }

  /** Asking for a set of existing modifiers leaves the variant with exactly those. */
  lemma ModifiersSettleOnRequest(current: seq<Id>, requested: seq<Id>, stored: seq<Id>)
    requires |requested| > 0 && Distinct(stored) && Distinct(requested)
    requires forall x :: x in requested ==> x in stored
    ensures multiset(PatchModifiers(current, Some(requested), stored)) == multiset(requested)
  {
    if multiset(current) != multiset(requested) {
      FindAllByIdsExact(stored, requested);
    }
  }

  /** Sending the same modifier list twice changes nothing the second time. */
  lemma PatchModifiersIdempotent(current: seq<Id>, requested: Option<seq<Id>>, stored: seq<Id>)
    ensures var once := PatchModifiers(current, requested, stored);
      PatchModifiers(once, requested, stored) == once
  {
  }

  /** Repeating an accepted update is accepted again and leaves the catalogue as the first left it. */
  lemma UpdateIsIdempotent(db: Catalog, id: Id, itemId: Id, dto: UpdateVariantDto, user: User)
    requires UpdateVariant(db, id, itemId, dto, user).1.Ok?
    ensures var (db1, r1) := UpdateVariant(db, id, itemId, dto, user);
      UpdateVariant(db1, id, itemId, dto, user) == (db1, r1)
  {
    var (db1, r1) := UpdateVariant(db, id, itemId, dto, user);
    var v := db.variants[id];
    PatchModifiersIdempotent(v.modifiers, dto.modifiers, db.modifierIds);
    assert db1.variants[id] == r1.value;
    assert ApplyUpdate(r1.value, dto, user, db.modifierIds) == r1.value;
    assert db1.variants[id := r1.value] == db1.variants;
  }

  /** NotFound comes first: whoever asks, a missing variant is reported as missing, and Forbidden
      is only ever raised for a variant that was found. */
  lemma UpdateNotFoundBeforeForbidden(db: Catalog, id: Id, itemId: Id, dto: UpdateVariantDto, user: User)
    ensures var r := UpdateVariant(db, id, itemId, dto, user).1;
      && (r.Err? && r.error.NotFound? <==> !Visible(db, id) || db.variants[id].item != Some(itemId) || itemId !in db.items)
      && (r.Err? && r.error.Forbidden? ==>
            && Visible(db, id) && itemId in db.items
            && db.items[itemId].business.Some? && user.business.Some?
            && db.items[itemId].business != user.business)
      && (r.Ok? ==> Visible(db, id) && itemId in db.items && db.items[itemId].business.Some?
                    && db.items[itemId].business == user.business)
  {
  }

  /** An update touches its own row only, and never the row's item, creator or deletion stamp. */
  lemma UpdateTouchesOneRow(db: Catalog, id: Id, itemId: Id, dto: UpdateVariantDto, user: User, other: Id)
    requires other != id
    ensures var db1 := UpdateVariant(db, id, itemId, dto, user).0;
      && db1.variants.Keys == db.variants.Keys
      && (other in db.variants ==> db1.variants[other] == db.variants[other])
      && db1.items == db.items && db1.modifierIds == db.modifierIds
      && (id in db.variants ==>
            && db1.variants[id].item == db.variants[id].item
            && db1.variants[id].createdBy == db.variants[id].createdBy
            && db1.variants[id].deletedAt == db.variants[id].deletedAt)
  {
  }

  /** The three outcomes of a delete, in the order they are checked. */
  lemma DeleteOutcomes(db: Catalog, variantId: Id, userId: Id, now: Time)
    ensures var (db1, r) := DeleteVariant(db, variantId, userId, now);
      && (!Visible(db, variantId) ==> r == Err(NotFound(VariantNotFound(variantId))))
      && (Visible(db, variantId) && db.variants[variantId].createdBy != userId ==> r == Err(Forbidden(DeleteForbidden)))
      && (r.Ok? <==> Visible(db, variantId) && db.variants[variantId].createdBy == userId)
      && (r.Ok? ==> !Visible(db1, variantId) && db1.variants[variantId] == db.variants[variantId].(deletedAt := Some(now)))
  {
  }

  /** Once deleted, a variant can neither be deleted again nor updated: both report it missing. */
  lemma DeletedStaysGone(db: Catalog, variantId: Id, userId: Id, now: Time,
                         userId2: Id, now2: Time, itemId: Id, dto: UpdateVariantDto, user: User)
    requires DeleteVariant(db, variantId, userId, now).1.Ok?
    ensures var db1 := DeleteVariant(db, variantId, userId, now).0;
      && DeleteVariant(db1, variantId, userId2, now2) == (db1, Err(NotFound(VariantNotFound(variantId))))
      && UpdateVariant(db1, variantId, itemId, dto, user) == (db1, Err(NotFound(VariantNotFound(variantId))))
  {
  }

  /** A margin is stored on a new variant exactly when both prices are truthy, and an update
      recomputes it under the same condition. */
  lemma MarginRuleAgrees(dto: CreateVariantDto, user: User, stored: seq<Id>, v: Variant, patch: UpdateVariantDto)
    requires dto.sku.Some?
    requires patch.sellingPrice == Some(dto.sellingPrice) && patch.purchasePrice == dto.purchasePrice
    ensures NewVariant(dto, user, stored).value.margin.MarginOf? ==>
              ApplyUpdate(v, patch, user, stored).margin == NewVariant(dto, user, stored).value.margin
    ensures NewVariant(dto, user, stored).value.margin.NoMargin? ==>
              ApplyUpdate(v, patch, user, stored).margin == v.margin
  {
  }
}
