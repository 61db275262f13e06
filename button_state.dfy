/** The label of a product button (src/utils/getButtonState.ts). */
module ButtonStates {
  import opened Types
  import opened Purchase

  /** The first matching rule decides: out of stock, cash without change, cash with
      enough balance, card, and otherwise merely active. */
  function GetButtonState(product: Product, balance: int, paymentMethod: PaymentMethod,
                          changeAvailable: bool): ButtonState {
    if product.stock <= 0 then Disabled
    else if paymentMethod == Cash && !changeAvailable then Active
    else if paymentMethod == Cash && balance >= product.price then Purchasable
    else if paymentMethod == Card then Purchasable
    else Active
  }

  /** The button is disabled exactly when the product is out of stock. */
  lemma DisabledIffOutOfStock(product: Product, balance: int, paymentMethod: PaymentMethod, changeAvailable: bool)
    ensures GetButtonState(product, balance, paymentMethod, changeAvailable) == Disabled <==> product.stock <= 0
  {
  }

  /** Cash without change available leaves an in-stock button merely active. */
  lemma CashWithoutChangeIsActive(product: Product, balance: int)
    requires product.stock > 0
    ensures GetButtonState(product, balance, Cash, false) == Active
  {
  }

  /** Cash with change and enough balance makes an in-stock button purchasable. */
  lemma CashWithBalanceIsPurchasable(product: Product, balance: int)
    requires product.stock > 0 && balance >= product.price
    ensures GetButtonState(product, balance, Cash, true) == Purchasable
  {
  }

  /** A card makes every in-stock button purchasable, whatever the balance. */
  lemma CardIsPurchasable(product: Product, balance: int, changeAvailable: bool)
    requires product.stock > 0
    ensures GetButtonState(product, balance, Card, changeAvailable) == Purchasable
  {
  }

  /** No payment method, or cash short of the price, leaves an in-stock button active. */
  lemma OtherwiseActive(product: Product, balance: int, paymentMethod: PaymentMethod, changeAvailable: bool)
    requires product.stock > 0
    requires paymentMethod == NoPayment || (paymentMethod == Cash && balance < product.price)
    ensures GetButtonState(product, balance, paymentMethod, changeAvailable) == Active
  {
  }

  /** The button says "purchasable" exactly when the purchase rule allows buying. */
  lemma PurchasableIffCanPurchase(product: Product, balance: int, paymentMethod: PaymentMethod,
                                  changeAvailable: bool)
    ensures GetButtonState(product, balance, paymentMethod, changeAvailable) == Purchasable <==>
            CanPurchase(product, balance, paymentMethod, changeAvailable)
  {
  }
}
