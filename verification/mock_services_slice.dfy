/** The placeholder services slice (src/store/slices/servicesSlice.ts): a
    fetch that resolves to two fixed listings, and its three lifecycle
    cases. It has its own listing record, with a provider name and a review
    count named `reviews`. */
module MockServicesSlice {
  import opened Common

  datatype MockService = MockService(
    id: string,
    title: string,
    description: string,
    price: int,
    category: string,
    providerId: string,
    providerName: string,
    rating: real,
    reviews: nat,
    image: Option<string>)

  datatype State = State(services: seq<MockService>, isLoading: bool, error: Option<string>)

  const Initial := State([], false, None)

  /** The fallback message of a rejection without one. */
  const FetchFailed := "Failed to fetch services"

  /** What the simulated fetch resolves to: two listings, ids "1" and "2". */
  function MockServices(): (r: seq<MockService>)
    ensures |r| == 2 && r[0].id == "1" && r[1].id == "2"
    ensures r[0].category == "development" && r[1].category == "design"
    ensures r[0].price == 500 && r[1].price == 200
  {
    [ MockService("1", "Professional Web Development",
                  "Full-stack web development services with modern technologies",
                  500, "development", "user1", "John Doe", 4.8, 25, None),
      MockService("2", "Logo Design",
                  "Creative and professional logo design services",
                  200, "design", "user2", "Jane Smith", 4.9, 18, None) ]
  }

  /** `fetchServices.rejected` reads `action.error.message`, which may be
      absent; an absent or empty message falls back to `FetchFailed`. */
  datatype Action = Pending | Fulfilled(payload: seq<MockService>) | Rejected(errorMessage: Option<string>)

  function Reduce(s: State, a: Action): (t: State)
    ensures a.Pending? ==> t.isLoading && t.error == None && t.services == s.services
    ensures a.Fulfilled? ==> !t.isLoading && t.services == a.payload && t.error == s.error
    ensures a.Rejected? ==> !t.isLoading && t.services == s.services
    ensures a.Rejected? && a.errorMessage.Some? && a.errorMessage.value != "" ==>
      t.error == a.errorMessage
    ensures a.Rejected? && (a.errorMessage.None? || a.errorMessage.value == "") ==>
      t.error == Some(FetchFailed)
  {
    match a
    case Pending => s.(isLoading := true, error := None)
    case Fulfilled(l) => s.(isLoading := false, services := l)
    case Rejected(m) =>
      s.(isLoading := false,
         error := Some(if m.Some? && m.value != "" then m.value else FetchFailed))
  }

  /** A rejected fetch always leaves a message to show. */
  lemma RejectionAlwaysExplained(s: State, m: Option<string>)
    ensures var t := Reduce(s, Rejected(m));
      t.error.Some? && t.error.value != ""
  {
  }

  /** Fetching from the initial state ends with the two fixed listings and
      no error. */
  lemma FetchLoadsMockListings()
    ensures var t := Reduce(Reduce(Initial, Pending), Fulfilled(MockServices()));
      && !t.isLoading && t.error == None
      && |t.services| == 2 && t.services[0].id == "1" && t.services[1].id == "2"
  {
  }
}
