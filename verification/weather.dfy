/**
  The two threshold classifiers of the weather panel (src/App.jsx:163-176).

  `getWeatherIcon` maps a WMO weather code to an icon; the icon is an
  enumeration here instead of a rendered element. `getClothingRec` maps the
  current temperature (degrees Fahrenheit, already rounded to an integer)
  to a piece of clothing advice.
*/
module Weather {
  import opened Wrappers

  datatype Icon = CloudRain | CloudSnow | Cloud | Sun

  /** `getWeatherIcon`: the four icons split the codes into disjoint bands. */
  function WeatherIcon(code: int): (icon: Icon)
    ensures icon == Sun <==> code <= 2
    ensures icon == CloudRain <==> 51 <= code <= 67
    ensures icon == CloudSnow <==> 71 <= code <= 77
    ensures icon == Cloud <==> (3 <= code <= 50 || 68 <= code <= 70 || 78 <= code)
  {
    if code >= 51 && code <= 67 then CloudRain
    else if code >= 71 && code <= 77 then CloudSnow
    else if code > 2 then Cloud
    else Sun
  }

  datatype Advice = Loading | WinterCoat | Jacket | LongSleeves | Shorts

  /** The text the dashboard shows for each piece of advice. */
  function Message(a: Advice): (m: string)
    ensures m != []
    ensures m == "Loading..." <==> a == Loading
  {
    match a
    case Loading => "Loading..."
    case WinterCoat => "Winter coat, hat, and gloves!"
    case Jacket => "Jacket or heavy hoodie."
    case LongSleeves => "Long sleeves or light layer."
    case Shorts => "Shorts and T-shirt weather!"
  }

  /** Different advice is shown as different text. */
  lemma MessagesDistinct(a: Advice, b: Advice)
    requires a != b
    ensures Message(a) != Message(b)
  {
  }

  /** How warmly the advice dresses; `Loading` dresses nobody. */
  function Warmth(a: Advice): nat {
    match a
    case Loading => 0
    case Shorts => 1
    case LongSleeves => 2
    case Jacket => 3
    case WinterCoat => 4
  }

  /** `getClothingRec` as written: a temperature of 0 is falsy and reads as
      "Loading...", like a missing reading. */
  function ClothingRec(temp: int): (a: Advice)
    ensures a == Loading <==> temp == 0
    ensures a == WinterCoat <==> temp != 0 && temp < 40
    ensures a == Jacket <==> 40 <= temp < 60
    ensures a == LongSleeves <==> 60 <= temp < 75
    ensures a == Shorts <==> 75 <= temp
  {
    if temp == 0 then Loading
    else if temp < 40 then WinterCoat
    else if temp < 60 then Jacket
    else if temp < 75 then LongSleeves
    else Shorts
  }

  /** Apart from the reading 0, a colder reading never gets lighter advice. */
  lemma ClothingRecMonotone(t1: int, t2: int)
    requires t1 <= t2 && t1 != 0 && t2 != 0
    ensures Warmth(ClothingRec(t1)) >= Warmth(ClothingRec(t2)) >= 1
  {
  }

  /** A real 0 degree reading, colder than -1 and 1 which both get the
      winter coat, is shown as "Loading...". */
  lemma FreezingReadingShowsLoading()
    ensures Message(ClothingRec(0)) == "Loading..."
    ensures ClothingRec(-1) == WinterCoat && ClothingRec(1) == WinterCoat
    ensures Warmth(ClothingRec(0)) < Warmth(ClothingRec(1))
  {
  }

  /** The advice as evidently intended: "Loading..." only while there is no
      reading yet (`None`), every real reading banded by temperature. */
  function ClothingRecFixed(temp: Option<int>): (a: Advice)
    ensures a == Loading <==> temp.None?
    ensures temp.Some? && temp.value != 0 ==> a == ClothingRec(temp.value)
    ensures temp == Some(0) ==> a == WinterCoat
  {
    match temp
    case None => Loading
    case Some(t) =>
      if t < 40 then WinterCoat
      else if t < 60 then Jacket
      else if t < 75 then LongSleeves
      else Shorts
  }

  /** With the correction, advice is monotone over every pair of readings. */
  lemma ClothingRecFixedMonotone(t1: int, t2: int)
    requires t1 <= t2
    ensures Warmth(ClothingRecFixed(Some(t1))) >= Warmth(ClothingRecFixed(Some(t2))) >= 1
  {
  }
}
