/** The doctor directory page (app/page.tsx): the list of doctors it loads,
    the search box that filters it, and what the page shows in each state. */
module Home {
  import opened Wrappers
  import opened Text
  import opened Types
  import DoctorCard

  const LoadFallback := "Failed to load doctors"

  /** The page's own copy of `getAvailabilityColor`, with the same three
      badge classes as the card component; the grey default branch cannot
      be reached with the closed enumeration. */
  function AvailabilityColor(availability: AvailabilityStatus): (r: string)
    ensures r == DoctorCard.GreenBadge <==> availability == AvailableToday
    ensures r == DoctorCard.RedBadge <==> availability == FullyBooked
    ensures r == DoctorCard.YellowBadge <==> availability == AvailableTomorrow
  {
    match availability
    case AvailableToday => "bg-green-100 text-green-800 border-green-200"
    case FullyBooked => "bg-red-100 text-red-800 border-red-200"
    case AvailableTomorrow => "bg-yellow-100 text-yellow-800 border-yellow-200"
  }

  /** The page and the card component colour every label alike. */
  lemma AvailabilityColorsAgree(availability: AvailabilityStatus)
    ensures AvailabilityColor(availability) == DoctorCard.AvailabilityColor(availability)
  {
  }

  /** The search test: the lower-cased name or the lower-cased
      specialization contains the lower-cased search term. */
  predicate MatchesSearch(doctor: Doctor, term: string): (r: bool)
    ensures r <==>
      || (exists i :: OccursAt(ToLower(doctor.name), ToLower(term), i))
      || (exists i :: OccursAt(ToLower(doctor.specialization), ToLower(term), i))
  {
    Includes(ToLower(doctor.name), ToLower(term))
    || Includes(ToLower(doctor.specialization), ToLower(term))
  }

  /** `a` is `b` with some elements dropped and the rest kept in order. */
  predicate IsSubsequence<T(==)>(a: seq<T>, b: seq<T>)
    decreases |b|
  {
    if a == [] then true
    else if b == [] then false
    else if a[0] == b[0] then IsSubsequence(a[1..], b[1..])
    else IsSubsequence(a, b[1..])
  }

  /** `doctors.filter(...)` in the search effect: the doctors whose name
      or specialization matches, in their original order. */
  function FilterDoctors(doctors: seq<Doctor>, term: string): (r: seq<Doctor>)
    ensures |r| <= |doctors|
    ensures forall d :: d in r <==> d in doctors && MatchesSearch(d, term)
  {
    if doctors == [] then []
    else if MatchesSearch(doctors[0], term) then [doctors[0]] + FilterDoctors(doctors[1..], term)
    else FilterDoctors(doctors[1..], term)
  }

  /** Each matching doctor is kept as many times as it occurs in the list,
      and no other is kept. */
  lemma {:induction false} FilterCounts(doctors: seq<Doctor>, term: string)
    ensures forall d ::
      multiset(FilterDoctors(doctors, term))[d] == if MatchesSearch(d, term) then multiset(doctors)[d] else 0
    decreases |doctors|
  {
    if doctors != [] {
      FilterCounts(doctors[1..], term);
      assert doctors == [doctors[0]] + doctors[1..];
      assert multiset(doctors) == multiset{doctors[0]} + multiset(doctors[1..]);
    }
  }

  /** The kept doctors appear in the order of the loaded list. */
  lemma {:induction false} FilterKeepsOrder(doctors: seq<Doctor>, term: string)
    ensures IsSubsequence(FilterDoctors(doctors, term), doctors)
    decreases |doctors|
  {
    if doctors != [] {
      FilterKeepsOrder(doctors[1..], term);
      var rest := FilterDoctors(doctors[1..], term);
      if MatchesSearch(doctors[0], term) {
        assert ([doctors[0]] + rest)[1..] == rest;
      } else if rest != [] {
        assert rest[0] in rest;
      }
    }
  }

  /** The shown list is empty exactly when no loaded doctor matches. */
  lemma FilterEmptyIffNoMatch(doctors: seq<Doctor>, term: string)
    ensures FilterDoctors(doctors, term) == [] <==> forall d :: d in doctors ==> !MatchesSearch(d, term)
  {
    var r := FilterDoctors(doctors, term);
    assert r != [] ==> r[0] in r;
  }

  /** Filtering a concatenation filters each part. */
  lemma {:induction false} FilterConcat(a: seq<Doctor>, b: seq<Doctor>, term: string)
    ensures FilterDoctors(a + b, term) == FilterDoctors(a, term) + FilterDoctors(b, term)
    decreases |a|
  {
    if a == [] {
      assert a + b == b;
    } else {
      var ab := a + b;
      assert ab[0] == a[0] && ab[1..] == a[1..] + b;
      FilterConcat(a[1..], b, term);
      var restA := FilterDoctors(a[1..], term);
      var restB := FilterDoctors(b, term);
      if MatchesSearch(a[0], term) {
        assert FilterDoctors(ab, term) == [a[0]] + (restA + restB);
        assert FilterDoctors(a, term) == [a[0]] + restA;
      } else {
        assert FilterDoctors(ab, term) == restA + restB;
        assert FilterDoctors(a, term) == restA;
      }
    }
  }

  /** An empty search box shows every doctor. */
  lemma {:induction false} FilterEmptyTerm(doctors: seq<Doctor>)
    ensures FilterDoctors(doctors, "") == doctors
    decreases |doctors|
  {
    if doctors != [] {
      assert ToLower("") == "";
      IncludesEmpty(ToLower(doctors[0].name));
      FilterEmptyTerm(doctors[1..]);
    }
  }

  /** The search ignores the case of the term's ASCII letters. */
  lemma {:induction false} FilterCaseInsensitive(doctors: seq<Doctor>, term: string)
    ensures FilterDoctors(doctors, term) == FilterDoctors(doctors, ToLower(term))
    decreases |doctors|
  {
    if doctors != [] {
      ToLowerIdempotent(term);
      FilterCaseInsensitive(doctors[1..], term);
    }
  }

  /** Filtering the filtered list again with the same term changes nothing. */
  lemma {:induction false} FilterIdempotent(doctors: seq<Doctor>, term: string)
    ensures FilterDoctors(FilterDoctors(doctors, term), term) == FilterDoctors(doctors, term)
    decreases |doctors|
  {
    if doctors != [] {
      FilterIdempotent(doctors[1..], term);
      var rest := FilterDoctors(doctors[1..], term);
      if MatchesSearch(doctors[0], term) {
        assert ([doctors[0]] + rest)[1..] == rest;
      }
    }
  }

  /** A longer term keeps only doctors a shorter term it extends also
      keeps: typing more characters never brings a doctor back. */
  lemma {:induction false} FilterNarrows(doctors: seq<Doctor>, term: string, more: string)
    ensures forall d :: d in FilterDoctors(doctors, term + more) ==> d in FilterDoctors(doctors, term)
  {
    forall d | d in FilterDoctors(doctors, term + more)
      ensures MatchesSearch(d, term)
    {
      MatchesExtension(d.name, term, more);
      MatchesExtension(d.specialization, term, more);
    }
  }

  /** A text that contains `term + more` (ignoring case) contains `term`. */
  lemma MatchesExtension(text: string, term: string, more: string)
    ensures Includes(ToLower(text), ToLower(term + more)) ==> Includes(ToLower(text), ToLower(term))
  {
    var lt := ToLower(term);
    var lw := ToLower(term + more);
    assert lw[..|lt|] == lt;
    if Includes(ToLower(text), lw) {
      var i :| OccursAt(ToLower(text), lw, i);
      assert ToLower(text)[i..i + |lt|] == lw[..|lt|];
      assert OccursAt(ToLower(text), lt, i);
    }
  }

  /** The count line under "Available Doctors": the number of doctors
      shown, "doctor" with an "s" unless the count is one, "found", and the
      quoted search term when the box is not empty. */
  function CountLabel(count: nat, term: string): (r: string)
    ensures var n := NatToDecimal(count);
      && |r| >= |n| + 13
      && r[..|n|] == n
      && r[|n|..|n| + 7] == " doctor"
      && (r[|n| + 7] == 's' <==> count != 1)
    ensures var p := |NatToDecimal(count)| + 7 + (if count != 1 then 1 else 0);
      && |r| == p + 6 + (if term == "" then 0 else |term| + 7)
      && r[p..p + 6] == " found"
    ensures term != "" ==> r[|r| - |term| - 7..] == " for \"" + term + "\""
  {
    var n := NatToDecimal(count);
    var head := n + " doctor";
    var tail := (if count != 1 then "s" else "") + " found";
    assert tail[0] == if count != 1 then 's' else ' ';
    var line := head + tail;
    assert line[..|n|] == n && line[|n|..|n| + 7] == " doctor" && line[|n| + 7] == tail[0];
    assert line[|line| - 6..] == " found";
    if term == "" then
      assert line[|line| - 6..] == " found";
      line
    else
      var suffix := " for \"" + term + "\"";
      var r := line + suffix;
      assert r[..|line|] == line;
      assert r[|r| - |suffix|..] == suffix;
      r
  }

  /** The card the page draws inline for one doctor. It shows the same
      fields as the card component, but the picture's alternative text is
      the bare name. */
  function PageCard(doctor: Doctor): (c: DoctorCard.CardView)
    ensures c.imageSrc == DoctorCard.ImageSource(doctor)
    ensures c.imageAlt == doctor.name
    ensures c.name == doctor.name && c.specialization == doctor.specialization
    ensures c.rating == doctor.rating && c.experience == doctor.experience && c.location == doctor.location
    ensures c.badgeClass == AvailabilityColor(doctor.availability)
    ensures c.badgeClass == DoctorCard.AvailabilityColor(doctor.availability)
    ensures c.badgeText == AvailabilityText(doctor.availability)
    ensures c.href == DoctorCard.ProfileHref(doctor)
    ensures c.buttonDisabled <==> doctor.availability == FullyBooked
    ensures c.buttonLabel == DoctorCard.FullyBookedLabel <==> doctor.availability == FullyBooked
    ensures c.buttonLabel == DoctorCard.ViewProfileLabel <==> doctor.availability != FullyBooked
  {
    DoctorCard.CardView(
      DoctorCard.ImageSource(doctor),
      doctor.name,
      doctor.name,
      doctor.specialization,
      doctor.rating,
      doctor.experience,
      doctor.location,
      AvailabilityColor(doctor.availability),
      AvailabilityText(doctor.availability),
      "/doctor/" + IntToDecimal(doctor.id),
      doctor.availability == FullyBooked,
      if doctor.availability == FullyBooked then "Fully Booked" else "View Profile")
  }

  /** The inline card and the card component differ in the picture's
      alternative text only. */
  lemma PageCardMatchesComponent(doctor: Doctor)
    ensures PageCard(doctor) == DoctorCard.Render(doctor).(imageAlt := doctor.name)
    ensures PageCard(doctor).imageAlt != DoctorCard.Render(doctor).imageAlt
  {
    assert |DoctorCard.Render(doctor).imageAlt| == |doctor.name| + 4;
  }

  /** What the page shows. */
  datatype HomeView =
    | Spinner
    | LoadError(message: string)
    | NoDoctorsFound(countLabel: string)
    | DoctorGrid(countLabel: string, cards: seq<DoctorCard.CardView>)

  /** The page's state and its effects. */
  class HomePage {
    var doctors: seq<Doctor>
    var filteredDoctors: seq<Doctor>
    var searchTerm: string
    var loadingState: LoadingState

    /** The shown list is the search result for the current term and list. */
    predicate Synced()
      reads this
    {
      filteredDoctors == FilterDoctors(doctors, searchTerm)
    }

    /** The state on first render: nothing loaded, an empty search box,
        and the spinner on. */
    constructor()
      ensures doctors == [] && filteredDoctors == [] && searchTerm == ""
      ensures loadingState == LoadingState(true, None)
      ensures Synced()
    {
      doctors := [];
      filteredDoctors := [];
      searchTerm := "";
      loadingState := LoadingState(true, None);
    }

    /** The search effect, run whenever the term or the list changes. */
    method FilterEffect()
      modifies this`filteredDoctors
      ensures filteredDoctors == FilterDoctors(doctors, searchTerm)
      ensures Synced()
    {
      filteredDoctors := FilterDoctors(doctors, searchTerm);
    }

    /** Typing in the search box: the term changes and the search effect
        re-runs. The loaded list is untouched. */
    method SetSearchTerm(term: string)
      modifies this`searchTerm, this`filteredDoctors
      ensures searchTerm == term
      ensures filteredDoctors == FilterDoctors(doctors, term)
      ensures Synced()
    {
      searchTerm := term;
      FilterEffect();
    }

    /** The load effect with the fetch's outcome as a parameter. On success
        both lists become the fetched data, after which the search effect
        re-runs because the list changed; on failure the message of a
        thrown Error, or the fallback text, is kept. Either way the spinner
        ends. */
    method LoadDoctors(fetched: Result<seq<Doctor>, Thrown>)
      requires Synced()
      modifies this`doctors, this`filteredDoctors, this`loadingState
      ensures fetched.Success? ==> doctors == fetched.value
      ensures fetched.Success? ==> filteredDoctors == FilterDoctors(fetched.value, searchTerm)
      ensures fetched.Success? && searchTerm == "" ==> filteredDoctors == fetched.value
      ensures fetched.Success? ==> loadingState == LoadingState(false, None)
      ensures fetched.Failure? ==> doctors == old(doctors) && filteredDoctors == old(filteredDoctors)
      ensures fetched.Failure? ==>
        loadingState == LoadingState(false, Some(CaughtMessage(fetched.error, LoadFallback)))
      ensures Synced()
    {
      loadingState := LoadingState(true, None);
      match fetched {
        case Success(data) =>
          doctors := data;
          filteredDoctors := data;
          FilterEffect();
          if searchTerm == "" {
            FilterEmptyTerm(data);
          }
        case Failure(error) =>
          loadingState := LoadingState(false, Some(CaughtMessage(error, LoadFallback)));
      }
      loadingState := loadingState.(isLoading := false);
    }

    /** The rendered page: the spinner while loading, the error when there
        is a non-empty one, otherwise the count line and either the empty
        notice or one card per shown doctor. */
    function View(): (v: HomeView)
      reads this
      ensures loadingState.isLoading ==> v == Spinner
      ensures !loadingState.isLoading && loadingState.error.Some? && loadingState.error.value != ""
        ==> v == LoadError(loadingState.error.value)
      ensures v.NoDoctorsFound? || v.DoctorGrid? ==>
        v.countLabel == CountLabel(|filteredDoctors|, searchTerm)
      ensures v.NoDoctorsFound? ==> |filteredDoctors| == 0
      ensures v.DoctorGrid? ==>
        && |filteredDoctors| > 0
        && |v.cards| == |filteredDoctors|
        && forall i :: 0 <= i < |v.cards| ==> v.cards[i] == PageCard(filteredDoctors[i])
      ensures (v.NoDoctorsFound? || v.DoctorGrid?) <==>
        !loadingState.isLoading && (loadingState.error.None? || loadingState.error.value == "")
    {
      if loadingState.isLoading then Spinner
      else if loadingState.error.Some? && loadingState.error.value != "" then
        LoadError(loadingState.error.value)
      else if |filteredDoctors| == 0 then
        NoDoctorsFound(CountLabel(0, searchTerm))
      else
        DoctorGrid(CountLabel(|filteredDoctors|, searchTerm),
          seq(|filteredDoctors|, i requires 0 <= i < |filteredDoctors| reads this => PageCard(filteredDoctors[i])))
    }
  }

  /** Loading a list, then typing a term that no doctor's name or
      specialization contains, shows the "No doctors found" notice with a
      zero count. */
  method NoMatchScenario(data: seq<Doctor>, term: string) returns (view: HomeView)
    requires forall d :: d in data ==> !MatchesSearch(d, term)
    ensures view.NoDoctorsFound?
    ensures view.countLabel == CountLabel(0, term)
  {
    var page := new HomePage();
    page.LoadDoctors(Success(data));
    page.SetSearchTerm(term);
    FilterEmptyIffNoMatch(data, term);
    view := page.View();
  }
}
