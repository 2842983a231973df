/**
 * The two total mappings of components/GreetingHeader.tsx: weather code to
 * icon, and hour of the day to greeting. The weather codes are those of the
 * WMO Manual on Codes, code table 4677, as served by Open-Meteo.
 */
module Greeting {

  /** The bands of weather codes the header tells apart; `Unlisted` is every other code. */
  datatype Sky =
    | Clear | MainlyClear | Overcast | Fog | Drizzle | Rain | FreezingRain
    | Snow | SnowGrains | RainShowers | SnowShowers | Thunderstorm | Unlisted

  /** The codes of each listed band, stated independently of one another. */
  predicate InBand(code: int, sky: Sky) {
    match sky
    case Clear => code == 0
    case MainlyClear => code == 1 || code == 2
    case Overcast => code == 3
    case Fog => code == 45 || code == 48
    case Drizzle => 51 <= code <= 55
    case Rain => 61 <= code <= 65
    case FreezingRain => 66 <= code <= 67
    case Snow => 71 <= code <= 75
    case SnowGrains => code == 77
    case RainShowers => 80 <= code <= 82
    case SnowShowers => 85 <= code <= 86
    case Thunderstorm => code >= 95
    case Unlisted => false
  }

  predicate Listed(code: int) {
    exists sky: Sky :: InBand(code, sky)
  }

  /** The icon of each band, by day and by night. */
  function IconOf(sky: Sky, isDay: bool): string {
    match sky
    case Clear => if isDay then "☀️" else "🌕"
    case MainlyClear => if isDay then "🌤️" else "☁️"
    case Overcast => "☁️"
    case Fog => "🌫️"
    case Drizzle => "🌦️"
    case Rain => "🌧️"
    case FreezingRain => "🧊"
    case Snow => "❄️"
    case SnowGrains => "🌨️"
    case RainShowers => "🌧️"
    case SnowShowers => "🌨️"
    case Thunderstorm => "⛈️"
    case Unlisted => if isDay then "☀️" else "🌙"
  }

  /** No code lies in two listed bands, so the order of the header's tests does not matter. */
  lemma BandsDisjoint(code: int, a: Sky, b: Sky)
    requires InBand(code, a) && InBand(code, b)
    ensures a == b
  {
  }

  /**
   * `getWeatherIcon`: the tests of the header in their order. Whatever band
   * holds decides the icon, and a code in no band gets the fallback.
   */
  function WeatherIcon(code: int, isDay: bool): (r: string)
    ensures forall sky: Sky | InBand(code, sky) :: r == IconOf(sky, isDay)
  {
    if code == 0 then (if isDay then "☀️" else "🌕")
    else if code == 1 || code == 2 then (if isDay then "🌤️" else "☁️")
    else if code == 3 then "☁️"
    else if code == 45 || code == 48 then "🌫️"
    else if code >= 51 && code <= 55 then "🌦️"
    else if code >= 61 && code <= 65 then "🌧️"
    else if code >= 66 && code <= 67 then "🧊"
    else if code >= 71 && code <= 75 then "❄️"
    else if code == 77 then "🌨️"
    else if code >= 80 && code <= 82 then "🌧️"
    else if code >= 85 && code <= 86 then "🌨️"
    else if code >= 95 then "⛈️"
    else if isDay then "☀️" else "🌙"
  }

  /** A code in no listed band gets the fallback icon. */
  lemma UnlistedFallsBack(code: int, isDay: bool)
    requires !Listed(code)
    ensures WeatherIcon(code, isDay) == IconOf(Unlisted, isDay)
  {
    assert !InBand(code, Clear) && !InBand(code, MainlyClear) && !InBand(code, Overcast) && !InBand(code, Fog);
    assert !InBand(code, Drizzle) && !InBand(code, Rain) && !InBand(code, FreezingRain) && !InBand(code, Snow);
    assert !InBand(code, SnowGrains) && !InBand(code, RainShowers) && !InBand(code, SnowShowers);
    assert !InBand(code, Thunderstorm);
  }

  /** Codes outside every band, among them 4, 56 to 60, 68 to 70, 76, 87 to 94 and the negatives, get the fallback. */
  lemma FallbackCodes(code: int, isDay: bool)
    requires code == 4 || 56 <= code <= 60 || 68 <= code <= 70 || code == 76 || 87 <= code <= 94 || code < 0
    ensures WeatherIcon(code, isDay) == (if isDay then "☀️" else "🌙")
  {
    assert !Listed(code);
    UnlistedFallsBack(code, isDay);
  }

  /** Rain (61 to 65) and rain showers (80 to 82) share an icon; drizzle has its own. */
  lemma RainIcons(isDay: bool)
    ensures forall c | 61 <= c <= 65 :: WeatherIcon(c, isDay) == "🌧️"
    ensures forall c | 80 <= c <= 82 :: WeatherIcon(c, isDay) == "🌧️"
    ensures forall c | 51 <= c <= 55 :: WeatherIcon(c, isDay) == "🌦️"
  {
  }

  datatype Salutation = Salutation(text: string, sub: string, fallbackIcon: string)

  /** The four parts of the day the header greets. */
  datatype DayPart = Morning | Afternoon | Evening | LateNight

  predicate InPart(hour: int, part: DayPart) {
    match part
    case Morning => 5 <= hour < 12
    case Afternoon => 12 <= hour < 18
    case Evening => 18 <= hour < 22
    case LateNight => (0 <= hour < 5) || (22 <= hour < 24)
  }

  function SalutationOf(part: DayPart): Salutation {
    match part
    case Morning => Salutation("Chào buổi sáng!", "Chúc bạn một ngày mới tràn đầy năng lượng", "☀️")
    case Afternoon => Salutation("Chào buổi chiều!", "Hy vọng công việc của bạn đang tiến triển tốt", "🌤️")
    case Evening => Salutation("Chào buổi tối!", "Đã đến lúc nghỉ ngơi và ghi lại chi tiêu hôm nay", "🌙")
    case LateNight => Salutation("Chào buổi khuya!", "Khuya rồi, nghỉ ngơi sớm để giữ gìn sức khỏe nhé", "✨")
  }

  /** `getGreeting` on the clock's hour: the greeting of the part of the day the hour falls in. */
  function GreetingFor(hour: int): (r: Salutation)
    ensures forall part: DayPart | InPart(hour, part) :: r == SalutationOf(part)
  {
    if hour >= 5 && hour < 12 then SalutationOf(Morning)
    else if hour >= 12 && hour < 18 then SalutationOf(Afternoon)
    else if hour >= 18 && hour < 22 then SalutationOf(Evening)
    else SalutationOf(LateNight)
  }

  /** Every hour of the clock lies in exactly one part of the day. */
  lemma EveryHourOnePart(hour: int)
    requires 0 <= hour < 24
    ensures exists part: DayPart :: InPart(hour, part)
    ensures forall a: DayPart, b: DayPart | InPart(hour, a) && InPart(hour, b) :: a == b
  {
    if 5 <= hour < 12 { assert InPart(hour, Morning); }
    else if 12 <= hour < 18 { assert InPart(hour, Afternoon); }
    else if 18 <= hour < 22 { assert InPart(hour, Evening); }
    else { assert InPart(hour, LateNight); }
  }

  /** The four greetings differ, so the greeting tells which part of the day it is. */
  lemma GreetingsDistinct(a: DayPart, b: DayPart)
    requires a != b
    ensures SalutationOf(a).text != SalutationOf(b).text
  {
  }
}
