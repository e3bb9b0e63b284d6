/**
 * The add-shop form of app/shops/addShop.tsx: five `useState` fields,
 * validated in sequence with early returns, then one shop is built and
 * handed to `addShop` and four of the fields are reset.
 */
module AddShop {
  import opened Wrappers
  import Js

  /** `SHOP_TYPES`. */
  datatype ShopType = Supermarket | Butcher | Bakery | Fishmonger | Greengrocer | OtherShop

  /** `Shop`, including the `categories` it sells. */
  datatype Shop = Shop(
    id: string,
    name: string,
    shopType: ShopType,
    categories: seq<string>,
    latitude: real,
    longitude: real)

  /** What one press of "Save Shop" does; each case is one `Alert.alert`. */
  datatype AddShopOutcome =
    | MissingFields      // "All shop fields are required."
    | InvalidNumbers     // "Latitude and Longitude must be valid numbers."
    | Added(shop: Shop)  // "Shop added successfully!", after `addShop(shop)`

  /** `!shopName.trim() || shopType === undefined || !shopLat.trim() || !shopLon.trim()`. */
  function MissingRequired(name: string, shopType: Option<ShopType>, lat: string, lon: string): bool {
    Js.Trim(name) == "" || shopType.None? || Js.Trim(lat) == "" || Js.Trim(lon) == ""
  }

  /**
   * The decision of `handleAddShop` on the current fields. `parseFloat`
   * stands for JavaScript's `parseFloat` followed by `isNaN`: `None` is NaN.
   * `newId` is the `String(Date.now())` reading.
   */
  function Decide(name: string, shopType: Option<ShopType>, lat: string, lon: string,
                  categories: seq<string>, newId: string, parseFloat: string -> Option<real>): (r: AddShopOutcome)
    ensures r == MissingFields <==>
              Js.IsBlank(name) || shopType.None? || Js.IsBlank(lat) || Js.IsBlank(lon)
    ensures r == InvalidNumbers <==>
              !Js.IsBlank(name) && shopType.Some? && !Js.IsBlank(lat) && !Js.IsBlank(lon) &&
              (parseFloat(lat).None? || parseFloat(lon).None?)
    ensures r.Added? ==> r.shop.name == name && Some(r.shop.shopType) == shopType &&
                         r.shop.categories == categories && r.shop.id == newId &&
                         Some(r.shop.latitude) == parseFloat(lat) && Some(r.shop.longitude) == parseFloat(lon)
  {
    Js.TrimEmptyIffBlank(name);
    Js.TrimEmptyIffBlank(lat);
    Js.TrimEmptyIffBlank(lon);
    if MissingRequired(name, shopType, lat, lon) then
      MissingFields
    else
      var la := parseFloat(lat);
      var lo := parseFloat(lon);
      if la.None? || lo.None? then InvalidNumbers
      else Added(Shop(newId, name, shopType.value, categories, la.value, lo.value))
  }

  /** The required-field check comes first: a blank coordinate never yields the number error. */
  lemma BlankCoordinateIsNeverNumberError(name: string, shopType: Option<ShopType>, lat: string, lon: string,
                                           categories: seq<string>, newId: string, parseFloat: string -> Option<real>)
    requires Js.IsBlank(lat) || Js.IsBlank(lon)
    ensures Decide(name, shopType, lat, lon, categories, newId, parseFloat) == MissingFields
  {
  }

  class AddShopForm {
    var shopName: string
    var shopType: Option<ShopType>
    var shopLat: string
    var shopLon: string
    var categories: seq<string>

    /** The `useState` initial values. */
    constructor ()
      ensures shopName == "" && shopType.None? && shopLat == "" && shopLon == "" && categories == []
    {
      shopName, shopType, shopLat, shopLon, categories := "", None, "", "", [];
    }

    /**
     * `handleAddShop`. On either validation error nothing changes. On
     * success the shop is returned (it is the one argument of `addShop`)
     * and name, type and coordinates are reset; `categories` is kept.
     */
    method HandleAddShop(newId: string, parseFloat: string -> Option<real>) returns (outcome: AddShopOutcome)
      modifies this
      ensures outcome == Decide(old(shopName), old(shopType), old(shopLat), old(shopLon),
                                old(categories), newId, parseFloat)
      ensures !outcome.Added? ==>
                shopName == old(shopName) && shopType == old(shopType) &&
                shopLat == old(shopLat) && shopLon == old(shopLon)
      ensures outcome.Added? ==> shopName == "" && shopType.None? && shopLat == "" && shopLon == ""
      ensures categories == old(categories)
    {
      if MissingRequired(shopName, shopType, shopLat, shopLon) {
        outcome := MissingFields;  // Alert "All shop fields are required."
        return;
      }
      var lat := parseFloat(shopLat);
      var lon := parseFloat(shopLon);
      if lat.None? || lon.None? {
        outcome := InvalidNumbers;  // Alert "Latitude and Longitude must be valid numbers."
        return;
      }
      var shop := Shop(newId, shopName, shopType.value, categories, lat.value, lon.value);
      outcome := Added(shop);  // `addShop(shop)`, then the success Alert
      shopName := "";
      shopType := None;
      shopLat := "";
      shopLon := "";
    }
  }
}
