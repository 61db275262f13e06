/** Whether a product can be bought now (src/utils/canPurchase.ts). */
module Purchase {
  import opened Types

  /** Out of stock: never. Cash: only with change available and enough balance.
      Card: always. No payment method chosen: never. */
  predicate CanPurchase(product: Product, balance: int, paymentMethod: PaymentMethod, changeAvailable: bool) {
    if product.stock <= 0 then false
    else if paymentMethod == Cash then changeAvailable && balance >= product.price
    else if paymentMethod == Card then true
    else false
  }

  /** A product that is out of stock cannot be bought, whatever else holds. */
  lemma OutOfStockCannotPurchase(product: Product, balance: int, paymentMethod: PaymentMethod, changeAvailable: bool)
    requires product.stock <= 0
    ensures !CanPurchase(product, balance, paymentMethod, changeAvailable)
  {
  }

  /** Paying cash for a product in stock needs change and a balance covering the price. */
  lemma CashPurchase(product: Product, balance: int, changeAvailable: bool)
    requires product.stock > 0
    ensures CanPurchase(product, balance, Cash, changeAvailable) <==> changeAvailable && balance >= product.price
  {
  }

  /** Paying by card a product in stock is always possible, independent of balance and change. */
  lemma CardPurchase(product: Product, balance: int, changeAvailable: bool)
    requires product.stock > 0
    ensures CanPurchase(product, balance, Card, changeAvailable)
  {
  }

  /** Without a payment method nothing can be bought. */
  lemma NoPaymentCannotPurchase(product: Product, balance: int, changeAvailable: bool)
    ensures !CanPurchase(product, balance, NoPayment, changeAvailable)
  {
  }

  /** More balance never makes a purchasable product unpurchasable. */
  lemma CanPurchaseMonotoneInBalance(product: Product, balance: int, more: int,
                                     paymentMethod: PaymentMethod, changeAvailable: bool)
    requires balance <= more
    ensures CanPurchase(product, balance, paymentMethod, changeAvailable) ==>
            CanPurchase(product, more, paymentMethod, changeAvailable)
  {
  }
}
