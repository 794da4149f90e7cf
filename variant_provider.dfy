/** The variant provider over its repositories: the variant rows, the item rows they hang off and
    the stored modifier ids. Each request runs in one transaction, so a request that fails leaves
    every row as it was. */
module Variants {
  import opened Wrappers
  import opened Http
  import opened ArrayCompare
  import opened VariantModel

  class VariantProvider {
    var variants: map<Id, Variant>
    var items: map<Id, Item>
    var modifierIds: seq<Id>

    /** The rows the provider sees. */
    function State(): Catalog
      reads this
    {
      Catalog(variants, items, modifierIds)
    }

    constructor (items: map<Id, Item>, modifierIds: seq<Id>)
      ensures State() == Catalog(map[], items, modifierIds)
    {
      variants := map[];
      this.items := items;
      this.modifierIds := modifierIds;
    }

    /** createVariant: the new row is stored under the id the database hands out (`newId`). */
    method CreateVariant(dto: CreateVariantDto, user: User, newId: Id) returns (r: Result<Variant, Exception>)
      requires newId !in variants
      modifies this
      ensures r == NewVariant(dto, user, old(modifierIds))
      ensures r.Ok? ==> State() == old(State()).(variants := old(variants)[newId := r.value])
      ensures r.Err? ==> State() == old(State())
    {
      if dto.sku.None? {
        return Err(RequestTimeout(CreateFailed));
      }
      var stock := NewSku(dto.sku.value, user.id);
      var modifiers := [];
      if dto.modifiers.Some? && |dto.modifiers.value| > 0 {
        modifiers := FindAllByIds(modifierIds, dto.modifiers.value);
      }
      var margin := NoMargin;
      if TruthyNum(dto.purchasePrice) && dto.sellingPrice != 0.0 {
        margin := MarginOf(dto.sellingPrice, dto.purchasePrice.value);
      }
      var variant := Variant(
        dto.name, if TruthyStr(dto.image) then dto.image.value else "",
        dto.sellingPrice, dto.purchasePrice, margin, Some(stock),
        dto.barcode, dto.manufactureDate, dto.expireDate, dto.expireDateAlert, dto.tax, dto.internalNote,
        modifiers, None, user.id, user.id, None);
      variants := variants[newId := variant];
      return Ok(variant);
    }

    /** updateVariantById: the found row is patched step by step and saved. */
    method UpdateVariantById(id: Id, itemId: Id, dto: UpdateVariantDto, user: User) returns (r: Result<Variant, Exception>)
      modifies this
      ensures (State(), r) == UpdateVariant(old(State()), id, itemId, dto, user)
    {
      if id !in variants || variants[id].deletedAt.Some? || variants[id].item != Some(itemId) || itemId !in items {
        return Err(NotFound(VariantNotFound(id)));
      }
      var variant := variants[id];
      var business := items[itemId].business;
      if business.None? || user.business.None? {
        return Err(RequestTimeout(UpdateFailed(id)));
      }
      if business.value != user.business.value {
        return Err(Forbidden(UpdateForbidden));
      }

      variant := PatchBasics(variant, dto);

      if TruthyNum(dto.sellingPrice) && TruthyNum(dto.purchasePrice) {
        variant := variant.(margin := MarginOf(dto.sellingPrice.value, dto.purchasePrice.value));
      }

      if dto.sku.Some? {
        if variant.stock.None? {
          variant := variant.(stock := Some(NewSku(dto.sku.value, user.id)));
        } else {
          variant := variant.(stock := Some(MergeSku(variant.stock.value, dto.sku.value, user.id)));
        }
      }

      if dto.modifiers.Some? && |dto.modifiers.value| > 0 {
        var current := variant.modifiers;
        var requested := dto.modifiers.value;
        if !AreArraysEqual(current, requested) {
          variant := variant.(modifiers := FindAllByIds(modifierIds, requested));
        }
      }

      variant := variant.(updatedBy := user.id);
      variants := variants[id := variant];
      return Ok(variant);
    }

    /** deleteVariantById: the creator's request stamps the row deleted at `now`. */
    method DeleteVariantById(variantId: Id, userId: Id, now: Time) returns (r: Result<string, Exception>)
      modifies this
      ensures (State(), r) == DeleteVariant(old(State()), variantId, userId, now)
    {
      if variantId !in variants || variants[variantId].deletedAt.Some? {
        return Err(NotFound(VariantNotFound(variantId)));
      }
      var variant := variants[variantId];
      if variant.createdBy != userId {
        return Err(Forbidden(DeleteForbidden));
      }
      variants := variants[variantId := variant.(deletedAt := Some(now))];
      return Ok(Deleted);
    }
  }
}
