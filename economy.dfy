/**
  The persistent economy of the runner: the coin balance, the best score, the
  owned and active skins and the four perk flags; the flat skin price and the
  perk price table; the shop's buy and activate rules; and the shallow merge of
  a saved record over the defaults.

  The shop's buttons become the functions BuySkin, BuyPerk, ChooseSkin and
  ChoosePerk on values; the Store class holds the one mutable state object and
  its methods are proved against those functions.
 */
module Economy {

  datatype Perk = DoubleJump | Shield | Magnet | Speed

  /** The ownedPerks object: one "owned" flag per perk. */
  datatype Perks = Perks(doubleJump: bool, shield: bool, magnet: bool, speed: bool)
  {
    predicate Has(k: Perk)
    {
      match k
      case DoubleJump => doubleJump
      case Shield => shield
      case Magnet => magnet
      case Speed => speed
    }

    /** ownedPerks[k] = true */
    function With(k: Perk): (p: Perks)
      ensures p.Has(k)
      ensures forall j :: j != k ==> p.Has(j) == Has(j)
    {
      match k
      case DoubleJump => this.(doubleJump := true)
      case Shield => this.(shield := true)
      case Magnet => this.(magnet := true)
      case Speed => this.(speed := true)
    }
  }

  const NoPerks := Perks(false, false, false, false)

  /** The price column of PERK_DEFS. */
  function PerkPrice(k: Perk): (price: nat)
    ensures 120 <= price <= 200
  {
    match k
    case DoubleJump => 150
    case Shield => 200
    case Magnet => 120
    case Speed => 180
  }

  /** Every skin costs the same. */
  const SkinPrice: nat := 80

  const DefaultSkin := "classic"

  /** The persisted economy record. */
  datatype EconomyState = EconomyState(
    coins: int,
    best: int,
    ownedSkins: seq<string>,
    activeSkin: string,
    ownedPerks: Perks)

  /** defaultState */
  const Default := EconomyState(0, 0, [DefaultSkin], DefaultSkin, NoPerks)

  /** The economy invariant: no debt, and the active skin is owned. */
  predicate Coherent(e: EconomyState)
  {
    e.coins >= 0 && e.activeSkin in e.ownedSkins
  }

  datatype ShopError = InsufficientFunds | AlreadyOwned

  datatype Result<T> = Ok(value: T) | Err(error: ShopError)

  /**
    The buy button of a skin: when the balance covers the flat price, debit
    exactly that price, append the skin to the owned list and make it active;
    otherwise refuse and change nothing.
   */
  function BuySkin(e: EconomyState, key: string): (r: Result<EconomyState>)
    ensures r.Ok? <==> e.coins >= SkinPrice
    ensures r.Err? ==> r.error == InsufficientFunds
    ensures r.Ok? ==> r.value.coins == e.coins - SkinPrice && r.value.coins >= 0
    ensures r.Ok? ==> r.value.ownedSkins == e.ownedSkins + [key] && r.value.activeSkin == key
    ensures r.Ok? ==> r.value.best == e.best && r.value.ownedPerks == e.ownedPerks
  {
    if e.coins >= SkinPrice then
      Ok(e.(coins := e.coins - SkinPrice, ownedSkins := e.ownedSkins + [key], activeSkin := key))
    else
      Err(InsufficientFunds)
  }

  /**
    The buy button of a perk: when the balance covers PERK_DEFS[k].price,
    debit exactly that price and set the flag; otherwise refuse.
   */
  function BuyPerk(e: EconomyState, k: Perk): (r: Result<EconomyState>)
    ensures r.Ok? <==> e.coins >= PerkPrice(k)
    ensures r.Err? ==> r.error == InsufficientFunds
    ensures r.Ok? ==> r.value.coins == e.coins - PerkPrice(k) && r.value.coins >= 0
    ensures r.Ok? ==> r.value.ownedPerks.Has(k)
    ensures r.Ok? ==> forall j :: j != k ==> r.value.ownedPerks.Has(j) == e.ownedPerks.Has(j)
    ensures r.Ok? ==> r.value.best == e.best && r.value.ownedSkins == e.ownedSkins &&
                      r.value.activeSkin == e.activeSkin
  {
    if e.coins >= PerkPrice(k) then
      Ok(e.(coins := e.coins - PerkPrice(k), ownedPerks := e.ownedPerks.With(k)))
    else
      Err(InsufficientFunds)
  }

  /**
    The button the shop shows for skin `key`: an owned skin gets an activate
    button (free), any other skin a buy button.
   */
  function ChooseSkin(e: EconomyState, key: string): (r: Result<EconomyState>)
    ensures r.Ok? ==> r.value.activeSkin == key && key in r.value.ownedSkins
    ensures key in e.ownedSkins ==> r == Ok(e.(activeSkin := key))
    ensures key !in e.ownedSkins ==> r == BuySkin(e, key)
  {
    if key in e.ownedSkins then Ok(e.(activeSkin := key)) else BuySkin(e, key)
  }

  /** The button the shop shows for perk k: disabled once owned, a buy button otherwise. */
  function ChoosePerk(e: EconomyState, k: Perk): (r: Result<EconomyState>)
    ensures e.ownedPerks.Has(k) ==> r == Err(AlreadyOwned)
    ensures !e.ownedPerks.Has(k) ==> r == BuyPerk(e, k)
  {
    if e.ownedPerks.Has(k) then Err(AlreadyOwned) else BuyPerk(e, k)
  }

  /** What a successful shop action cost. */
  function Spent(e: EconomyState, r: Result<EconomyState>): int
  {
    if r.Ok? then e.coins - r.value.coins else 0
  }

  /** Every shop action keeps the economy valid, and costs 0, 80 or the perk's price. */
  lemma ChooseSkinKeepsCoherent(e: EconomyState, key: string)
    requires Coherent(e)
    ensures var r := ChooseSkin(e, key);
            r.Ok? ==> Coherent(r.value) && Spent(e, r) == (if key in e.ownedSkins then 0 else SkinPrice)
  {
  }

  lemma ChoosePerkKeepsCoherent(e: EconomyState, k: Perk)
    requires Coherent(e)
    ensures var r := ChoosePerk(e, k);
            r.Ok? ==> Coherent(r.value) && Spent(e, r) == PerkPrice(k)
  {
  }

  /** Buying a perk twice: the second click finds the button disabled and changes nothing. */
  lemma PerkPurchaseIdempotent(e: EconomyState, k: Perk)
    requires ChoosePerk(e, k).Ok?
    ensures ChoosePerk(ChoosePerk(e, k).value, k) == Err(AlreadyOwned)
  {
  }

  /** Apply a shop outcome: the new economy when it succeeded, the old one otherwise. */
  function After(e: EconomyState, r: Result<EconomyState>): EconomyState
  {
    if r.Ok? then r.value else e
  }

  /** One click in the shop. */
  datatype ShopAction = SkinButton(key: string) | PerkButton(perk: Perk)

  function Click(e: EconomyState, a: ShopAction): Result<EconomyState>
  {
    match a
    case SkinButton(key) => ChooseSkin(e, key)
    case PerkButton(k) => ChoosePerk(e, k)
  }

  /** A series of clicks; a refused click leaves the economy as it was. */
  function Session(e: EconomyState, actions: seq<ShopAction>): EconomyState
    decreases |actions|
  {
    if |actions| == 0 then e
    else Session(After(e, Click(e, actions[0])), actions[1..])
  }

  /** The price a click pays when it succeeds: nothing to activate an owned skin, else the listed price. */
  function Price(e: EconomyState, a: ShopAction): (price: nat)
    ensures price <= 200
  {
    match a
    case SkinButton(key) => if key in e.ownedSkins then 0 else SkinPrice
    case PerkButton(k) => PerkPrice(k)
  }

  /** The total of the listed prices of the clicks that succeeded, in order. */
  function SessionCost(e: EconomyState, actions: seq<ShopAction>): (cost: nat)
    decreases |actions|
  {
    if |actions| == 0 then 0
    else
      var r := Click(e, actions[0]);
      (if r.Ok? then Price(e, actions[0]) else 0) + SessionCost(After(e, r), actions[1..])
  }

  /**
    Over any series of shop clicks the economy stays valid (never in debt, the
    active skin owned), the balance falls by exactly what the successful clicks
    cost, the best score is untouched, owned skins are never lost and a perk,
    once owned, stays owned.
   */
  lemma {:induction false} SessionKeepsCoherent(e: EconomyState, actions: seq<ShopAction>)
    requires Coherent(e)
    ensures Coherent(Session(e, actions))
    ensures Session(e, actions).coins == e.coins - SessionCost(e, actions)
    ensures Session(e, actions).best == e.best
    ensures forall s :: s in e.ownedSkins ==> s in Session(e, actions).ownedSkins
    ensures forall k :: e.ownedPerks.Has(k) ==> Session(e, actions).ownedPerks.Has(k)
    decreases |actions|
  {
    if |actions| > 0 {
      var r := Click(e, actions[0]);
      var next := After(e, r);
      match actions[0] {
        case SkinButton(key) => ChooseSkinKeepsCoherent(e, key);
        case PerkButton(k) => ChoosePerkKeepsCoherent(e, k);
      }
      SessionKeepsCoherent(next, actions[1..]);
    }
  }

  /**
    A parsed save blob. A field is None when the blob does not have it;
    a perk the blob's ownedPerks object leaves out reads as undefined, which
    is falsy.
   */
  datatype Saved = Saved(
    coins: Option<int>,
    best: Option<int>,
    ownedSkins: Option<seq<string>>,
    activeSkin: Option<string>,
    ownedPerks: Option<map<Perk, bool>>)

  datatype Option<T> = None | Some(value: T)

  function GetOr<T>(o: Option<T>, default: T): T
  {
    match o
    case Some(v) => v
    case None => default
  }

  function PerksFrom(m: map<Perk, bool>): (p: Perks)
    ensures forall k :: p.Has(k) <==> k in m && m[k]
  {
    Perks(DoubleJump in m && m[DoubleJump], Shield in m && m[Shield],
          Magnet in m && m[Magnet], Speed in m && m[Speed])
  }

  /**
    loadState: no blob (absent, or unreadable) gives the defaults; otherwise
    {...defaultState, ...obj}, a shallow merge in which each top-level field
    the blob has replaces the default as a whole (ownedPerks included).
   */
  function Load(saved: Option<Saved>): (e: EconomyState)
    ensures saved.None? ==> e == Default
    ensures saved.Some? ==> var s := saved.value;
      && e.coins == GetOr(s.coins, Default.coins)
      && e.best == GetOr(s.best, Default.best)
      && e.ownedSkins == GetOr(s.ownedSkins, Default.ownedSkins)
      && e.activeSkin == GetOr(s.activeSkin, Default.activeSkin)
      && (s.ownedPerks.None? ==> e.ownedPerks == NoPerks)
      && (s.ownedPerks.Some? ==> forall k :: e.ownedPerks.Has(k) <==> k in s.ownedPerks.value && s.ownedPerks.value[k])
  {
    match saved
    case None => Default
    case Some(s) =>
      EconomyState(GetOr(s.coins, Default.coins), GetOr(s.best, Default.best),
              GetOr(s.ownedSkins, Default.ownedSkins), GetOr(s.activeSkin, Default.activeSkin),
              match s.ownedPerks { case Some(m) => PerksFrom(m) case None => NoPerks })
  }

  /** The ownedPerks object as saved: one key per perk. */
  function Flags(p: Perks): map<Perk, bool>
  {
    map[DoubleJump := p.doubleJump, Shield := p.shield, Magnet := p.magnet, Speed := p.speed]
  }

  /** The saved object lists every perk, each with its flag. */
  lemma FlagsListEveryPerk(p: Perks)
    ensures forall k :: k in Flags(p) && Flags(p)[k] == p.Has(k)
  {
    forall k
      ensures k in Flags(p) && Flags(p)[k] == p.Has(k)
    {
      match k
      case DoubleJump =>
      case Shield =>
      case Magnet =>
      case Speed =>
    }
  }

  /** saveState: the whole record, every field present, every perk listed with its flag. */
  function Save(e: EconomyState): (s: Saved)
    ensures s.coins == Some(e.coins) && s.best == Some(e.best)
    ensures s.ownedSkins == Some(e.ownedSkins) && s.activeSkin == Some(e.activeSkin)
    ensures s.ownedPerks.Some? && forall k :: k in s.ownedPerks.value && s.ownedPerks.value[k] == e.ownedPerks.Has(k)
  {
    FlagsListEveryPerk(e.ownedPerks);
    Saved(Some(e.coins), Some(e.best), Some(e.ownedSkins), Some(e.activeSkin), Some(Flags(e.ownedPerks)))
  }

  /** Saving and loading back gives the same economy, so save/load/save is stable. */
  lemma LoadSaveRoundTrip(e: EconomyState)
    ensures Load(Some(Save(e))) == e
    ensures Save(Load(Some(Save(e)))) == Save(e)
  {
    var m := Save(e).ownedPerks.value;
    assert PerksFrom(m) == e.ownedPerks;
  }

  /**
    The defaults are valid, and so is a blob whose present fields keep the
    balance non-negative and name an owned active skin.
   */
  lemma LoadValid(saved: Option<Saved>)
    requires saved.Some? ==> GetOr(saved.value.coins, 0) >= 0
    requires saved.Some? ==> GetOr(saved.value.activeSkin, DefaultSkin) in GetOr(saved.value.ownedSkins, [DefaultSkin])
    ensures Coherent(Load(saved))
  {
  }

  /**
    The merge does not check the blob: one whose ownedSkins list leaves out
    the default skin, with no activeSkin of its own, loads with the default
    skin active but not owned.
   */
  lemma LoadDoesNotValidate()
    ensures !Coherent(Load(Some(Saved(None, None, Some(["lava"]), None, None))))
  {
  }

  /**
    The one mutable `state` object: the simulation credits coins and records
    the best score through it, and the shop's buttons buy and activate
    through it.
   */
  class Store {
    var coins: int
    var best: int
    var ownedSkins: seq<string>
    var activeSkin: string
    var ownedPerks: Perks

    function Value(): EconomyState
      reads this
    {
      EconomyState(coins, best, ownedSkins, activeSkin, ownedPerks)
    }

    constructor (e: EconomyState)
      ensures Value() == e
    {
      coins, best, ownedSkins, activeSkin, ownedPerks := e.coins, e.best, e.ownedSkins, e.activeSkin, e.ownedPerks;
    }

    /** state.coins += 1, for one collected coin. */
    method Credit()
      modifies this
      ensures Value() == old(Value()).(coins := old(coins) + 1)
      ensures old(Coherent(Value())) ==> Coherent(Value())
    {
      coins := coins + 1;
    }

    /** state.best = Math.max(state.best, score): the best score never decreases. */
    method RecordBest(score: int)
      modifies this
      ensures best >= old(best) && best >= score && (best == old(best) || best == score)
      ensures Value() == old(Value()).(best := best)
      ensures old(Coherent(Value())) ==> Coherent(Value())
    {
      if score > best {
        best := score;
      }
    }

    /** The activate button of an owned skin. */
    method Activate(key: string)
      modifies this
      ensures Value() == old(Value()).(activeSkin := key)
    {
      activeSkin := key;
    }

    /** The buy button of a skin not yet owned. */
    method PurchaseSkin(key: string) returns (ok: bool)
      modifies this
      ensures ok == BuySkin(old(Value()), key).Ok?
      ensures Value() == After(old(Value()), BuySkin(old(Value()), key))
    {
      ok := coins >= SkinPrice;
      if ok {
        coins := coins - SkinPrice;
        ownedSkins := ownedSkins + [key];
        activeSkin := key;
      }
    }

    /** The buy button of a perk not yet owned. */
    method PurchasePerk(k: Perk) returns (ok: bool)
      modifies this
      ensures ok == BuyPerk(old(Value()), k).Ok?
      ensures Value() == After(old(Value()), BuyPerk(old(Value()), k))
    {
      ok := coins >= PerkPrice(k);
      if ok {
        coins := coins - PerkPrice(k);
        ownedPerks := ownedPerks.With(k);
      }
    }
  }
}
