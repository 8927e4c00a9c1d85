/**
 * The rental decisions of FrontEnd/src/pages/GameDetails.jsx: how many free
 * subscription redemptions the user has used, what the title costs, what the page
 * charges, and which rental kind and term it asks the backend for.
 */
module GameDetails {
  import opened Wrappers
  import opened Js
  import opened Seqs
  import opened Entities
  import PriceCalculator

  /** The subscription choice that grants free titles. */
  const FullSubscription: string := "assinatura_full"
  /** The backend rental kind of a free subscription redemption. */
  const SubscriptionKind: string := "assinatura"
  /** The backend rental kind of a paid rental. */
  const UnitKind: string := "unitario"
  /** Free redemptions a subscription grants. */
  const FreeGamesLimit: nat := 3
  /** Per-day price of a title that has no price of its own. */
  const CatalogBasePrice: real := 10.0
  /** Term of a paid rental, in days. */
  const UnitDays: int := 30

  /** The page's state as the decisions read it. `game` is the loaded title's raw id. */
  datatype Page = Page(
    isClient: bool,
    isAdmin: bool,
    hasUser: bool,
    game: Option<JsVal>,
    gamePrice: real,
    rentalType: Option<string>,
    activeRents: Option<seq<Rent>>)

  /** What the page asks the backend for: a rental kind and, for paid rentals, a term. */
  datatype BackendRent = BackendRent(kind: string, days: Option<int>)

  /** The outcome of pressing "rent". */
  datatype RentAction =
    | Refuse(message: string)
    | ShowPurchaseModal(price: real)
    | Request(rent: BackendRent)

  predicate Subscribed(rentalType: Option<string>) {
    rentalType == Some(FullSubscription)
  }

  predicate IsSubscriptionRent(r: Rent) {
    r.rentalType == SubscriptionKind
  }

  /** `freeGamesCount`: the active subscription rents, counted only under the full subscription. */
  function FreeGamesCount(rentalType: Option<string>, activeRents: Option<seq<Rent>>): (n: nat)
    ensures !Subscribed(rentalType) ==> n == 0
    ensures activeRents.None? ==> n == 0
    ensures Subscribed(rentalType) && activeRents.Some? ==>
              n == |Filter(activeRents.value, IsSubscriptionRent)| && n <= |activeRents.value|
  {
    var subscriptionRents := if activeRents.Some? then Filter(activeRents.value, IsSubscriptionRent) else [];
    if Subscribed(rentalType) then |subscriptionRents| else 0
  }

  /** `canRescueFreeGame`: a free slot is left. */
  predicate CanRescueFreeGame(rentalType: Option<string>, freeGamesCount: nat) {
    Subscribed(rentalType) && freeGamesCount < FreeGamesLimit
  }

  lemma CanRescueMeansFewerThanThreeSubscriptionRents(rentalType: Option<string>, rents: seq<Rent>)
    ensures CanRescueFreeGame(rentalType, FreeGamesCount(rentalType, Some(rents)))
            <==> Subscribed(rentalType) && |Filter(rents, IsSubscriptionRent)| < 3
  {
  }

  /** The price of a title with no price of its own, for the standard paid term. */
  function CatalogPrice(): real {
    PriceCalculator.CalculateRentalPrice(UnitKind, CatalogBasePrice, UnitDays)
  }

  lemma CatalogPriceValue()
    ensures CatalogPrice() == 210.0
  {
    PriceCalculator.UnitThirtyDaysAtTen();
  }

  /** The `rentalPrice` memo. */
  function RentalPrice(gameLoaded: bool, gamePrice: real, rentalType: Option<string>, freeGamesCount: nat): (p: real)
    ensures !gameLoaded ==> p == 0.0
    ensures gameLoaded && gamePrice > 0.0 && CanRescueFreeGame(rentalType, freeGamesCount) ==> p == 0.0
    ensures gameLoaded && gamePrice > 0.0 && !CanRescueFreeGame(rentalType, freeGamesCount) ==> p == gamePrice
    ensures gameLoaded && gamePrice <= 0.0 && CanRescueFreeGame(rentalType, freeGamesCount) ==> p == 0.0
    ensures gameLoaded && gamePrice <= 0.0 && !CanRescueFreeGame(rentalType, freeGamesCount) ==> p == 210.0
  {
    CatalogPriceValue();
    if !gameLoaded then 0.0
    else if gamePrice > 0.0 then
      if rentalType == Some(FullSubscription) then
        if freeGamesCount < 3 then 0.0 else gamePrice
      else gamePrice
    else
      if rentalType == Some(FullSubscription) then
        if freeGamesCount >= 3 then CatalogPrice() else 0.0
      else CatalogPrice()
  }

  /** The `backendRentalType` / `backendDays` choice both handlers make. */
  function BackendChoice(rentalType: Option<string>, freeGamesCount: nat): (b: BackendRent)
    ensures b.kind == SubscriptionKind <==> CanRescueFreeGame(rentalType, freeGamesCount)
    ensures b.kind == SubscriptionKind ==> b.days == None
    ensures b.kind != SubscriptionKind ==> b == BackendRent(UnitKind, Some(UnitDays))
  {
    if rentalType == Some(FullSubscription) then
      if freeGamesCount >= 3 then BackendRent(UnitKind, Some(UnitDays))
      else BackendRent(SubscriptionKind, None)
    else BackendRent(UnitKind, Some(UnitDays))
  }

  /** For a loaded title the rental is free exactly when the backend is asked for a redemption. */
  lemma FreeIffRedemption(gamePrice: real, rentalType: Option<string>, freeGamesCount: nat)
    ensures RentalPrice(true, gamePrice, rentalType, freeGamesCount) == 0.0
            <==> BackendChoice(rentalType, freeGamesCount).kind == SubscriptionKind
  {
  }

  /** `priceToPay`: the rental price if positive, else the title's own price if positive, else 0. */
  function PriceToPay(rentalPrice: real, gamePrice: real): (p: real)
    ensures p >= 0.0
    ensures p > 0.0 <==> rentalPrice > 0.0 || gamePrice > 0.0
    ensures rentalPrice > 0.0 ==> p == rentalPrice
    ensures rentalPrice <= 0.0 && gamePrice > 0.0 ==> p == gamePrice
  {
    if rentalPrice > 0.0 then rentalPrice else if gamePrice > 0.0 then gamePrice else 0.0
  }

  /** The numeric id the handlers check (`gameId`, 0 when the title has none). */
  function GameIdOf(id: JsVal): JsVal {
    if Truthy(id) then CoerceStringId(id) else N(Fin(0.0))
  }

  function PageFreeGamesCount(p: Page): nat {
    FreeGamesCount(p.rentalType, p.activeRents)
  }

  function PageRentalPrice(p: Page): real {
    RentalPrice(p.game.Some?, p.gamePrice, p.rentalType, PageFreeGamesCount(p))
  }

  /** The first two guards of `handleRent` let the page through: a client or admin, and a title with an id. */
  predicate PassesTitleGuards(p: Page) {
    (p.isClient || p.isAdmin) && p.game.Some? && Truthy(GameIdOf(p.game.value))
  }

  /** `handleRent`: the guards in order, then the purchase modal, the admin path or a request. */
  function HandleRent(p: Page): (a: RentAction)
    ensures !(p.isClient || p.isAdmin) ==> a == Refuse("Apenas clientes podem alugar jogos")
    ensures (p.isClient || p.isAdmin) && (p.game.None? || !Truthy(GameIdOf(p.game.value))) ==>
              a == Refuse("Jogo não encontrado")
    ensures a.ShowPurchaseModal? ==>
              !p.isAdmin && a.price > 0.0 && a.price == PriceToPay(PageRentalPrice(p), p.gamePrice)
    ensures a.Request? && p.isAdmin ==> a.rent == BackendRent(SubscriptionKind, None)
    ensures a.Request? && !p.isAdmin ==>
              a.rent == BackendChoice(p.rentalType, PageFreeGamesCount(p)) && a.rent.kind == SubscriptionKind
    ensures PassesTitleGuards(p) && !p.hasUser ==> a == Refuse("Usuário não autenticado")
    ensures PassesTitleGuards(p) && p.hasUser && !p.isAdmin && PriceToPay(PageRentalPrice(p), p.gamePrice) > 0.0 ==>
              a == ShowPurchaseModal(PriceToPay(PageRentalPrice(p), p.gamePrice))
    ensures PassesTitleGuards(p) && p.hasUser && p.isAdmin ==> a == Request(BackendRent(SubscriptionKind, None))
    ensures PassesTitleGuards(p) && p.hasUser && !p.isAdmin && PriceToPay(PageRentalPrice(p), p.gamePrice) == 0.0 ==>
              a == Request(BackendChoice(p.rentalType, PageFreeGamesCount(p)))
  {
    if !(p.isClient || p.isAdmin) then Refuse("Apenas clientes podem alugar jogos")
    else if p.game.None? || !Truthy(GameIdOf(p.game.value)) then Refuse("Jogo não encontrado")
    else if !p.hasUser then Refuse("Usuário não autenticado")
    else
      var priceToPay := PriceToPay(PageRentalPrice(p), p.gamePrice);
      if priceToPay > 0.0 && !p.isAdmin then ShowPurchaseModal(priceToPay)
      else if p.isAdmin then Request(BackendRent(SubscriptionKind, None))
      else
        FreeIffRedemption(p.gamePrice, p.rentalType, PageFreeGamesCount(p));
        Request(BackendChoice(p.rentalType, PageFreeGamesCount(p)))
  }

  /** `handleConfirmPurchase`: nothing without a title, id or user; else the same backend choice. */
  function HandleConfirmPurchase(p: Page): (r: Option<BackendRent>)
    ensures r.None? <==> p.game.None? || !Truthy(GameIdOf(p.game.value)) || !p.hasUser
    ensures r.Some? ==> r.value == BackendChoice(p.rentalType, PageFreeGamesCount(p))
  {
    if p.game.None? || !Truthy(GameIdOf(p.game.value)) || !p.hasUser then None
    else Some(BackendChoice(p.rentalType, PageFreeGamesCount(p)))
  }

  /**
   * A priced title during a free redemption: the rental price is 0, yet the page still
   * shows the purchase modal at the title's own price to a client, and the confirmed
   * purchase asks the backend for a free redemption.
   */
  lemma PricedTitleUnderFreeSlot(p: Page)
    requires p.isClient && !p.isAdmin && p.hasUser
    requires p.game.Some? && Truthy(GameIdOf(p.game.value))
    requires p.gamePrice > 0.0 && CanRescueFreeGame(p.rentalType, PageFreeGamesCount(p))
    ensures PageRentalPrice(p) == 0.0
    ensures HandleRent(p) == ShowPurchaseModal(p.gamePrice)
    ensures HandleConfirmPurchase(p) == Some(BackendRent(SubscriptionKind, None))
  {
  }
}
