/** The doctor card component (components/DoctorCard.tsx): what it shows
    for one doctor, its availability badge, and its profile button. */
module DoctorCard {
  import opened Text
  import opened Types

  const GreenBadge := "bg-green-100 text-green-800 border-green-200"
  const RedBadge := "bg-red-100 text-red-800 border-red-200"
  const YellowBadge := "bg-yellow-100 text-yellow-800 border-yellow-200"

  const FullyBookedLabel := "Fully Booked"
  const ViewProfileLabel := "View Profile"
  const PlaceholderImage := "/placeholder.svg"

  /** `getAvailabilityColor`: green for today, red for fully booked, yellow
      for tomorrow. The availability is a closed enumeration, so the
      switch's grey default branch cannot be reached. */
  function AvailabilityColor(availability: AvailabilityStatus): (r: string)
    ensures r == GreenBadge <==> availability == AvailableToday
    ensures r == RedBadge <==> availability == FullyBooked
    ensures r == YellowBadge <==> availability == AvailableTomorrow
  {
    match availability
    case AvailableToday => GreenBadge
    case FullyBooked => RedBadge
    case AvailableTomorrow => YellowBadge
  }

  /** Distinct labels get distinct badge classes. */
  lemma AvailabilityColorInjective(a: AvailabilityStatus, b: AvailabilityStatus)
    ensures AvailabilityColor(a) == AvailabilityColor(b) <==> a == b
  {
  }

  /** The profile button is disabled exactly for a fully booked doctor. */
  function ButtonDisabled(doctor: Doctor): (r: bool)
    ensures r <==> doctor.availability == FullyBooked
  {
    doctor.availability == FullyBooked
  }

  /** The button reads "Fully Booked" for a fully booked doctor and "View
      Profile" otherwise. */
  function ButtonLabel(doctor: Doctor): (r: string)
    ensures r == FullyBookedLabel <==> doctor.availability == FullyBooked
    ensures r == ViewProfileLabel <==> doctor.availability != FullyBooked
  {
    if doctor.availability == FullyBooked then FullyBookedLabel else ViewProfileLabel
  }

  /** The link target `/doctor/${doctor.id}`: the profile route followed by
      the canonical decimal text of the doctor's id, from which the id can
      be read back. */
  function ProfileHref(doctor: Doctor): (r: string)
    ensures r == "/doctor/" + IntToDecimal(doctor.id)
    ensures |r| > 8 && r[..8] == "/doctor/"
    ensures var digits := r[8..];
      digits != [] && (IsDigits(digits) || (digits[0] == '-' && IsDigits(digits[1..])))
      && SignedValue(digits) == doctor.id
    ensures r[8] == '-' <==> doctor.id < 0
    ensures var d := if doctor.id < 0 then r[9..] else r[8..];
      d != [] && (d[0] == '0' ==> d == "0")
  {
    var r := "/doctor/" + IntToDecimal(doctor.id);
    assert r[8..] == IntToDecimal(doctor.id);
    r
  }

  /** What a card shows, field by field. */
  datatype CardView = CardView(
    imageSrc: string,
    imageAlt: string,
    name: string,
    specialization: string,
    rating: real,
    experience: string,
    location: string,
    badgeClass: string,
    badgeText: string,
    href: string,
    buttonDisabled: bool,
    buttonLabel: string)

  /** `profileImage || "/placeholder.svg"`: an empty reference falls back
      to the placeholder. */
  function ImageSource(doctor: Doctor): (r: string)
    ensures doctor.profileImage != "" ==> r == doctor.profileImage
    ensures doctor.profileImage == "" ==> r == PlaceholderImage
    ensures r != ""
  {
    if doctor.profileImage != "" then doctor.profileImage else PlaceholderImage
  }

  /** The rendered card. It shows the doctor's own fields, and its badge,
      button state and button label all follow the doctor's availability: a
      red badge, a disabled button and the "Fully Booked" label come
      together, exactly for a fully booked doctor. */
  function Render(doctor: Doctor): (c: CardView)
    ensures c.imageSrc == ImageSource(doctor)
    ensures c.imageAlt == "Dr. " + doctor.name
    ensures c.name == doctor.name && c.specialization == doctor.specialization
    ensures c.rating == doctor.rating && c.experience == doctor.experience && c.location == doctor.location
    ensures c.badgeClass == AvailabilityColor(doctor.availability)
    ensures c.badgeText == AvailabilityText(doctor.availability)
    ensures c.buttonDisabled <==> doctor.availability == FullyBooked
    ensures c.buttonDisabled <==> c.badgeClass == RedBadge
    ensures c.buttonDisabled <==> c.buttonLabel == FullyBookedLabel
    ensures !c.buttonDisabled <==> c.buttonLabel == ViewProfileLabel
    ensures c.href == ProfileHref(doctor)
  {
    CardView(
      ImageSource(doctor),
      "Dr. " + doctor.name,
      doctor.name,
      doctor.specialization,
      doctor.rating,
      doctor.experience,
      doctor.location,
      AvailabilityColor(doctor.availability),
      AvailabilityText(doctor.availability),
      ProfileHref(doctor),
      ButtonDisabled(doctor),
      ButtonLabel(doctor))
  }
}
