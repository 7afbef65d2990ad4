/** The rows of the tables the core reads and writes. Monetary amounts are
    integers in the smallest currency unit; times are nanoseconds. */
module Entities {
  import opened Common
  import opened AutoFill

  // Order status codes, in lifecycle order.
  const PENDING_PAYMENT: int := 1
  const TO_BE_CONFIRMED: int := 2
  const CONFIRMED: int := 3
  const DELIVERY_IN_PROGRESS: int := 4
  const COMPLETED: int := 5
  const CANCELLED: int := 6

  // Pay status codes.
  const UN_PAID: int := 0
  const PAID: int := 1
  const REFUND: int := 2

  datatype AddressBook = AddressBook(id: int, userId: int, consignee: string, phone: string, detail: string)

  datatype Order = Order(
    id: int,
    number: string,
    status: int,
    userId: int,
    addressBookId: int,
    orderTime: int,
    checkoutTime: Option<int>,
    payMethod: int,
    payStatus: int,
    amount: int,
    remark: string,
    phone: string,
    address: string,
    consignee: string,
    cancelReason: Option<string>,
    cancelTime: Option<int>)

  /** A line item of an order: a snapshot of one cart row. */
  datatype OrderDetail = OrderDetail(
    name: string,
    image: string,
    orderId: int,
    dishId: Option<int>,
    setmealId: Option<int>,
    dishFlavor: Option<string>,
    number: int,
    amount: int)

  datatype CartRow = CartRow(
    id: int,
    name: string,
    image: string,
    userId: int,
    dishId: Option<int>,
    setmealId: Option<int>,
    dishFlavor: Option<string>,
    number: int,
    amount: int,
    createTime: int)

  datatype Dish = Dish(
    id: int,
    name: string,
    categoryId: int,
    price: int,
    image: string,
    description: string,
    status: int,
    audit: Audit)

  datatype DishFlavor = DishFlavor(dishId: int, name: string, value: string)

  datatype Setmeal = Setmeal(
    id: int,
    categoryId: int,
    name: string,
    price: int,
    status: int,
    description: string,
    image: string,
    audit: Audit)

  /** A link row: one dish inside one set-meal. */
  datatype SetmealDish = SetmealDish(setmealId: int, dishId: int, name: string, price: int, copies: int)

  datatype Employee = Employee(
    id: int,
    name: string,
    username: string,
    password: string,
    phone: string,
    sex: string,
    idNumber: string,
    status: int,
    audit: Audit)

  datatype User = User(id: int, createTime: int)
}
