/** The top-level view switch (`Home` in app/page.tsx): two pieces of state, the current
    view and the selected pet, two handlers that change them, and the guards that decide
    which screen is rendered. */
module Router {
  import opened Wrappers
  import opened PetData

  /** The views the app can show; `View` is declared in lib/pet-data, which is not part of
      this model, and these are the six values page.tsx compares against. */
  datatype View = Landing | DashboardView | AddPet | OwnerPetDetail | StaffPetDetail | StaffSearch

  /** The two views `handleSelectPet` may be asked to open. */
  datatype Target = OwnerDetail | StaffDetail

  function TargetView(t: Target): View {
    match t
    case OwnerDetail => OwnerPetDetail
    case StaffDetail => StaffPetDetail
  }

  /** `currentView` and `selectedPet` (`None` for `null`). */
  datatype HomeState = HomeState(currentView: View, selectedPet: Option<Pet>)

  const InitialHome := HomeState(Landing, None)

  /** The two handlers, as events. */
  datatype Event = Navigate(view: View) | SelectPet(pet: Pet, target: Target)

  /** The state after one handler call. */
  function Step(s: HomeState, e: Event): (r: HomeState)
    ensures e.Navigate? ==> r.currentView == e.view && r.selectedPet == s.selectedPet
    ensures e.SelectPet? ==> r.currentView == TargetView(e.target) && r.selectedPet == Some(e.pet)
  {
    match e
    case Navigate(v) => s.(currentView := v)
    case SelectPet(p, t) => HomeState(TargetView(t), Some(p))
  }

  /** The state after a sequence of handler calls. */
  function Run(s: HomeState, events: seq<Event>): HomeState
    decreases |events|
  {
    if events == [] then s else Run(Step(s, events[0]), events[1..])
  }

  /** Nothing sets `selectedPet` back to `null`: once a pet is selected, one stays
      selected. */
  lemma {:induction false} SelectionPersists(s: HomeState, events: seq<Event>)
    requires s.selectedPet.Some?
    ensures Run(s, events).selectedPet.Some?
    decreases |events|
  {
    if events != [] {
      SelectionPersists(Step(s, events[0]), events[1..]);
    }
  }

  /** Navigation never changes the selection: a run of `handleNavigate` calls keeps
      whatever selection there was and shows the last view asked for. */
  lemma {:induction false} NavigationOnly(s: HomeState, events: seq<Event>)
    requires forall i :: 0 <= i < |events| ==> events[i].Navigate?
    ensures Run(s, events).selectedPet == s.selectedPet
    ensures events != [] ==> Run(s, events).currentView == events[|events| - 1].view
    ensures events == [] ==> Run(s, events) == s
    decreases |events|
  {
    if events != [] {
      NavigationOnly(Step(s, events[0]), events[1..]);
      if |events| > 1 {
        assert events[1..][|events[1..]| - 1] == events[|events| - 1];
      }
    }
  }

  // ---------------------------------------------------------------- rendering

  /** The screens page.tsx can mount. */
  datatype Screen =
    | LandingScreen
    | DashboardScreen
    | AddPetScreen
    | OwnerDetailScreen(pet: Pet)
    | StaffDetailScreen(pet: Pet)
    | SearchScreen

  /** The screens mounted for a state: one `currentView === … &&` guard per screen, in
      source order; the two detail screens also need a selected pet. */
  function Screens(s: HomeState): seq<Screen> {
    (if s.currentView == Landing then [LandingScreen] else []) +
    (if s.currentView == DashboardView then [DashboardScreen] else []) +
    (if s.currentView == AddPet then [AddPetScreen] else []) +
    (if s.currentView == OwnerPetDetail && s.selectedPet.Some? then [OwnerDetailScreen(s.selectedPet.value)] else []) +
    (if s.currentView == StaffPetDetail && s.selectedPet.Some? then [StaffDetailScreen(s.selectedPet.value)] else []) +
    (if s.currentView == StaffSearch then [SearchScreen] else [])
  }

  /** The screen a view stands for, given the selection. */
  function ScreenFor(v: View, selected: Option<Pet>): Option<Screen> {
    match v
    case Landing => Some(LandingScreen)
    case DashboardView => Some(DashboardScreen)
    case AddPet => Some(AddPetScreen)
    case OwnerPetDetail => if selected.Some? then Some(OwnerDetailScreen(selected.value)) else None
    case StaffPetDetail => if selected.Some? then Some(StaffDetailScreen(selected.value)) else None
    case StaffSearch => Some(SearchScreen)
  }

  /** The guards exclude each other: at most one screen is mounted, the one the current
      view names. Only the detail views can show nothing, and only while no pet is
      selected; a detail screen shows the selected pet. */
  lemma ScreensExclusive(s: HomeState)
    ensures |Screens(s)| <= 1
    ensures Screens(s) == [] <==> ScreenFor(s.currentView, s.selectedPet).None?
    ensures Screens(s) != [] ==> Screens(s)[0] == ScreenFor(s.currentView, s.selectedPet).value
    ensures Screens(s) == [] <==>
            s.currentView in {OwnerPetDetail, StaffPetDetail} && s.selectedPet.None?
  {
  }

  /** After `handleSelectPet` the requested detail screen is mounted with that pet. */
  lemma SelectShowsDetail(s: HomeState, pet: Pet, t: Target)
    ensures Screens(Step(s, SelectPet(pet, t))) ==
            [if t == OwnerDetail then OwnerDetailScreen(pet) else StaffDetailScreen(pet)]
  {
    ScreensExclusive(Step(s, SelectPet(pet, t)));
  }

  // ---------------------------------------------------------------- component state

  /** `Home`'s two `useState` values. */
  class Home {
    var currentView: View
    var selectedPet: Option<Pet>

    function State(): HomeState
      reads this
    {
      HomeState(currentView, selectedPet)
    }

    /** Mounted on the landing view with no pet selected. */
    constructor ()
      ensures State() == InitialHome
    {
      currentView, selectedPet := Landing, None;
    }

    /** `handleNavigate(view)`: only the view changes. */
    method HandleNavigate(view: View)
      modifies this
      ensures State() == Step(old(State()), Navigate(view))
      ensures currentView == view && selectedPet == old(selectedPet)
    {
      currentView := view;
    }

    /** `handleSelectPet(pet, target)`: the pet and the view change together. */
    method HandleSelectPet(pet: Pet, target: Target)
      modifies this
      ensures State() == Step(old(State()), SelectPet(pet, target))
      ensures selectedPet == Some(pet) && currentView == TargetView(target)
    {
      selectedPet := Some(pet);
      currentView := TargetView(target);
    }

    /** What is rendered now. */
    function Rendered(): seq<Screen>
      reads this
    {
      Screens(State())
    }
  }
}
