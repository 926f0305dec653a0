/** The entity records of the marketplace (src/types/index.ts). Dates are
    millisecond timestamps (`nat`), prices and amounts are integers, ratings
    are reals. The string-literal unions of the TypeScript types become
    enumerations, each with its wire name and a parser back from it. */
module Types {
  import opened Common

  datatype UserType = Customer | Provider

  function UserTypeName(t: UserType): string {
    match t
    case Customer => "customer"
    case Provider => "provider"
  }

  /** The union `'customer' | 'provider'`: exactly those two strings name a
      user type, and each names the one it spells. */
  function ParseUserType(s: string): (r: Option<UserType>)
    ensures r.Some? <==> s == "customer" || s == "provider"
    ensures r.Some? ==> UserTypeName(r.value) == s
  {
    if s == "customer" then Some(Customer)
    else if s == "provider" then Some(Provider)
    else None
  }

  lemma UserTypeRoundTrip(t: UserType)
    ensures ParseUserType(UserTypeName(t)) == Some(t)
  {
  }

  datatype BookingStatus = Pending | Confirmed | Completed | Cancelled

  function BookingStatusName(b: BookingStatus): string {
    match b
    case Pending => "pending"
    case Confirmed => "confirmed"
    case Completed => "completed"
    case Cancelled => "cancelled"
  }

  /** The union `'pending' | 'confirmed' | 'completed' | 'cancelled'`. */
  function ParseBookingStatus(s: string): (r: Option<BookingStatus>)
    ensures r.Some? <==> s in {"pending", "confirmed", "completed", "cancelled"}
    ensures r.Some? ==> BookingStatusName(r.value) == s
  {
    if s == "pending" then Some(Pending)
    else if s == "confirmed" then Some(Confirmed)
    else if s == "completed" then Some(Completed)
    else if s == "cancelled" then Some(Cancelled)
    else None
  }

  lemma BookingStatusRoundTrip(b: BookingStatus)
    ensures ParseBookingStatus(BookingStatusName(b)) == Some(b)
  {
  }

  datatype PaymentStatus = Unpaid | Paid | Refunded

  function PaymentStatusName(p: PaymentStatus): string {
    match p
    case Unpaid => "pending"
    case Paid => "paid"
    case Refunded => "refunded"
  }

  /** The union `'pending' | 'paid' | 'refunded'`. */
  function ParsePaymentStatus(s: string): (r: Option<PaymentStatus>)
    ensures r.Some? <==> s in {"pending", "paid", "refunded"}
    ensures r.Some? ==> PaymentStatusName(r.value) == s
  {
    if s == "pending" then Some(Unpaid)
    else if s == "paid" then Some(Paid)
    else if s == "refunded" then Some(Refunded)
    else None
  }

  lemma PaymentStatusRoundTrip(p: PaymentStatus)
    ensures ParsePaymentStatus(PaymentStatusName(p)) == Some(p)
  {
  }

  datatype User = User(
    id: string,
    email: string,
    displayName: string,
    photoURL: Option<string>,
    userType: UserType,
    createdAt: nat)

  /** `ServiceProvider extends User` narrows `userType` to `'provider'`. */
  type ProviderAccount = u: User | u.userType == Provider
    witness User("", "", "", None, Provider, 0)

  /** `Customer extends User` narrows `userType` to `'customer'`. */
  type CustomerAccount = u: User | u.userType == Customer
    witness User("", "", "", None, Customer, 0)

  datatype PortfolioItem = PortfolioItem(id: string, title: string, description: string, imageUrl: string)

  datatype Availability = Availability(id: string, date: nat, startTime: string, endTime: string, isBooked: bool)

  datatype ServiceProvider = ServiceProvider(
    account: ProviderAccount,
    skills: seq<string>,
    portfolio: seq<PortfolioItem>,
    bio: string,
    location: string,
    rating: real,
    reviewCount: nat,
    availability: seq<Availability>)

  datatype CustomerProfile = CustomerProfile(
    account: CustomerAccount,
    savedServices: seq<string>,
    bookings: seq<string>)

  datatype Service = Service(
    id: string,
    providerId: string,
    title: string,
    description: string,
    category: string,
    price: int,
    imageUrl: string,
    location: string,
    rating: real,
    reviewCount: nat,
    createdAt: nat)

  datatype Booking = Booking(
    id: string,
    serviceId: string,
    customerId: string,
    providerId: string,
    date: nat,
    startTime: string,
    endTime: string,
    status: BookingStatus,
    paymentStatus: PaymentStatus,
    totalAmount: int,
    createdAt: nat)

  datatype Review = Review(
    id: string,
    serviceId: string,
    bookingId: string,
    customerId: string,
    providerId: string,
    rating: real,
    comment: string,
    createdAt: nat)

  /** Every stored message also carries the id of its conversation: the
      client writes it on send and queries by it, although the TypeScript
      interface does not list it. */
  datatype Message = Message(
    id: string,
    conversationId: string,
    senderId: string,
    receiverId: string,
    content: string,
    timestamp: nat,
    isRead: bool)

  datatype Conversation = Conversation(
    id: string,
    participants: seq<string>,
    lastMessage: string,
    lastMessageTimestamp: nat,
    unreadCount: int)

  /** The id of each keyed record, for the list operations of `IdList`. */
  function ServiceId(s: Service): string { s.id }
  function BookingId(b: Booking): string { b.id }
  function MessageId(m: Message): string { m.id }
  function ConversationId(c: Conversation): string { c.id }
}
