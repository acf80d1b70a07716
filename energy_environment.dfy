/** The household energy environment: a clock, a 5-bit appliance state and a
    cost model with time-of-day electricity pricing (energy_environment.py). */
module Environment {

  datatype Option<T> = None | Some(value: T) {
    /** The value, or `default` when absent: Python's `dict.get(key, default)` */
    function GetOr(default: T): T {
      match this
      case Some(v) => v
      case None => default
    }
  }

  /** The one configuration failure of the environment: an unrecognised season */
  datatype ConfigError = UnknownSeason

  datatype Result<T> = Ok(value: T) | Err(error: ConfigError)

  /** Positions in the appliance vector [light, washing_machine, fridge, gas_heating, gas_cooking] */
  const Light: int := 0
  const WashingMachine: int := 1
  const Fridge: int := 2
  const GasHeating: int := 3
  const GasCooking: int := 4

  /** Prices in pence per kWh */
  const PeakPrice: real := 24.50
  const OffPeakPrice: real := 22.36
  const GasPrice: real := 10.00

  const HoursPerDay: int := 24
  /** The episode is over once the day counter reaches this many days */
  const Horizon: int := 90

  /** The appliance_usage table of one season. A key the season's table does
      not have is None. */
  datatype SeasonProfile = SeasonProfile(
    washingMachine: real,
    fridge: real,
    lighting: real,
    heating: Option<real>,
    cooling: Option<real>,
    gasHeating: Option<real>,
    gasCooking: Option<real>)

  const WinterProfile: SeasonProfile :=
    SeasonProfile(0.12, 0.10, 0.08, Some(0.30), None, Some(0.5), Some(0.5))
  const SummerProfile: SeasonProfile :=
    SeasonProfile(0.10, 0.12, 0.05, None, Some(0.10), None, Some(0.8))

  predicate IsSeason(season: string) {
    season == "winter" || season == "summer"
  }

  /** Every coefficient present in the profile is non-negative */
  predicate NonNegative(p: SeasonProfile) {
    && p.washingMachine >= 0.0 && p.fridge >= 0.0 && p.lighting >= 0.0
    && p.heating.GetOr(0.0) >= 0.0 && p.cooling.GetOr(0.0) >= 0.0
    && p.gasHeating.GetOr(0.0) >= 0.0 && p.gasCooking.GetOr(0.0) >= 0.0
  }

  /** set_seasonal_parameters: the coefficient table of a season, or the
      configuration error for any other season string. */
  function SeasonalParameters(season: string): (r: Result<SeasonProfile>)
    ensures r.Ok? <==> IsSeason(season)
    ensures r.Err? ==> r.error == UnknownSeason
    ensures season == "winter" ==> r == Ok(WinterProfile)
    ensures season == "summer" ==> r == Ok(SummerProfile)
    ensures r.Ok? ==> NonNegative(r.value) && r.value.fridge > 0.0
    ensures r.Ok? ==> (r.value.heating.Some? <==> season == "winter")
    ensures r.Ok? ==> (r.value.cooling.Some? <==> season == "summer")
  {
    if season == "winter" then Ok(WinterProfile)
    else if season == "summer" then Ok(SummerProfile)
    else Err(UnknownSeason)
  }

  const InitialState: seq<int> := [0, 0, 1, 0, 0]

  /** A well-formed appliance vector: five 0/1 components */
  predicate Binary(a: seq<int>) {
    |a| == 5 && forall i :: 0 <= i < |a| ==> 0 <= a[i] <= 1
  }

  /** The action with its fridge bit forced on */
  function Corrected(action: seq<int>): (s: seq<int>)
    requires |action| == 5
    ensures |s| == 5 && s[Fridge] == 1
    ensures forall i :: 0 <= i < 5 && i != Fridge ==> s[i] == action[i]
    ensures Binary(action) ==> Binary(s)
  {
    action[Fridge := 1]
  }

  /** Electricity drawn in one hour. The fridge always counts as on; heating
      (winter) and cooling (summer) are drawn whatever the action. */
  function ElectricityUsed(p: SeasonProfile, numRooms: int, action: seq<int>): real
    requires |action| == 5
  {
    var fridge := 1;
    var used :=
      action[Light] as real * 0.5 * numRooms as real * p.lighting
      + action[WashingMachine] as real * 1.5 * p.washingMachine
      + fridge as real * 1.0 * p.fridge;
    var withHeating := if p.heating.Some? then used + 2.0 * p.heating.value else used;
    if p.cooling.Some? then withHeating + 1.0 * p.cooling.value else withHeating
  }

  /** Gas used in one hour; an absent gas coefficient counts as 0 */
  function GasUsed(p: SeasonProfile, action: seq<int>): real
    requires |action| == 5
  {
    action[GasHeating] as real * 3.0 * p.gasHeating.GetOr(0.0)
    + action[GasCooking] as real * 2.0 * p.gasCooking.GetOr(0.0)
  }

  predicate IsPeak(hour: int) {
    7 <= hour < 17 || 19 <= hour < 23
  }

  /** Electricity price in pounds per kWh at the given hour */
  function ElectricityPrice(hour: int): real {
    if IsPeak(hour) then PeakPrice / 100.0 else OffPeakPrice / 100.0
  }

  /** The reward of one step: minus the cost of the hour's electricity and gas */
  function Reward(p: SeasonProfile, numRooms: int, hour: int, action: seq<int>): real
    requires |action| == 5
  {
    -(ElectricityUsed(p, numRooms, action) * ElectricityPrice(hour)
      + GasUsed(p, action) * (GasPrice / 100.0))
  }

  datatype Clock = Clock(hour: int, day: int)

  /** One step of the clock: the hour advances and rolls over into the next day at 24 */
  function Tick(c: Clock): Clock {
    if c.hour + 1 >= HoursPerDay then Clock(0, c.day + 1) else Clock(c.hour + 1, c.day)
  }

  function Ticks(c: Clock, n: nat): Clock
    decreases n
  {
    if n == 0 then c else Tick(Ticks(c, n - 1))
  }

  predicate Done(c: Clock) {
    c.day >= Horizon
  }

  /** Where the clock stands after k steps from a reset */
  function ClockAt(k: nat): Clock {
    Clock(k % HoursPerDay, k / HoursPerDay)
  }

  /** The number of steps from a reset to the end of the episode */
  const EpisodeSteps: nat := 2160

  class EnergyEnvironment {
    const numRooms: int
    const season: string
    const profile: SeasonProfile
    var hour: int
    var day: int
    var state: seq<int>

    ghost predicate Valid()
      reads this
    {
      && SeasonalParameters(season) == Ok(profile)
      && 0 <= hour < HoursPerDay && 0 <= day
      && |state| == 5 && state[Fridge] == 1
    }

    function CurrentClock(): Clock
      reads this
    {
      Clock(hour, day)
    }

    constructor (numRooms: int, season: string, profile: SeasonProfile)
      requires SeasonalParameters(season) == Ok(profile)
      ensures Valid()
      ensures this.numRooms == numRooms && this.season == season && this.profile == profile
      ensures hour == 0 && day == 0 && state == InitialState
    {
      this.numRooms := numRooms;
      this.season := season;
      this.profile := profile;
      hour := 0;
      day := 0;
      state := InitialState;
    }

    /** Construction from a season name, failing on an unknown season */
    static method Create(numRooms: int := 1, season: string := "winter") returns (r: Result<EnergyEnvironment>)
      ensures r.Ok? <==> IsSeason(season)
      ensures r.Err? ==> r.error == UnknownSeason
      ensures r.Ok? ==> fresh(r.value) && r.value.Valid()
      ensures r.Ok? ==> r.value.numRooms == numRooms && r.value.season == season
      ensures r.Ok? ==> r.value.profile == SeasonalParameters(season).value
      ensures r.Ok? ==> r.value.hour == 0 && r.value.day == 0 && r.value.state == InitialState
    {
      var parameters := SeasonalParameters(season);
      if parameters.Err? {
        return Err(parameters.error);
      }
      var env := new EnergyEnvironment(numRooms, season, parameters.value);
      return Ok(env);
    }

    method Reset() returns (s: seq<int>)
      requires Valid()
      modifies this
      ensures Valid()
      ensures hour == 0 && day == 0 && state == InitialState && s == InitialState
    {
      state := InitialState;
      hour := 0;
      day := 0;
      s := state;
    }

    /** Applies an action for one hour. Nothing stops a step after the episode is done. */
    method Step(action: seq<int>) returns (next: seq<int>, reward: real, done: bool)
      requires Valid() && |action| == 5
      modifies this
      ensures Valid()
      ensures state == Corrected(action) && next == state
      ensures reward == Reward(profile, numRooms, old(hour), action)
      ensures CurrentClock() == Tick(old(CurrentClock()))
      ensures done == Done(CurrentClock())
    {
      var light, washingMachine, gasHeating, gasCooking := action[0], action[1], action[3], action[4];
      var fridge := 1;

      var electricityUsed :=
        light as real * 0.5 * numRooms as real * profile.lighting
        + washingMachine as real * 1.5 * profile.washingMachine
        + fridge as real * 1.0 * profile.fridge;
      var gasUsed :=
        gasHeating as real * 3.0 * profile.gasHeating.GetOr(0.0)
        + gasCooking as real * 2.0 * profile.gasCooking.GetOr(0.0);
      if profile.heating.Some? {
        electricityUsed := electricityUsed + 2.0 * profile.heating.value;
      }
      if profile.cooling.Some? {
        electricityUsed := electricityUsed + 1.0 * profile.cooling.value;
      }

      var electricityPrice;
      if 7 <= hour < 17 || 19 <= hour < 23 {
        electricityPrice := PeakPrice / 100.0;
      } else {
        electricityPrice := OffPeakPrice / 100.0;
      }
      var gasPrice := GasPrice / 100.0;
      reward := -(electricityUsed * electricityPrice + gasUsed * gasPrice);

      state := [light, washingMachine, fridge, gasHeating, gasCooking];
      hour := hour + 1;
      if hour >= HoursPerDay {
        hour := 0;
        day := day + 1;
      }
      done := day >= Horizon;
      next := state;
    }
  }

  /** The environment's behaviour end to end: one room in summer, one step
      with only the light switched on at midnight. */
  method SummerScenario() {
    var env := new EnergyEnvironment(1, "summer", SummerProfile);
    var s := env.Reset();
    assert s == [0, 0, 1, 0, 0];
    var next, reward, done := env.Step([1, 0, 0, 0, 0]);
    assert next == [1, 0, 1, 0, 0];
    assert !done;
    assert reward == -((0.5 * 1.0 * 0.05 + 0.12 + 0.10) * (22.36 / 100.0));
  }

  // ---------------------------------------------------------------- lemmas

  /** The fridge bit of the action has no effect on the reward */
  lemma FridgeBitIgnored(p: SeasonProfile, numRooms: int, hour: int, action: seq<int>, bit: int)
    requires |action| == 5
    ensures Reward(p, numRooms, hour, action[Fridge := bit]) == Reward(p, numRooms, hour, action)
  {
  }

  lemma MulNonNegative(x: real, y: real)
    requires x >= 0.0 && y >= 0.0
    ensures x * y >= 0.0
  {
  }

  /** With binary actions, a non-negative room count and non-negative
      coefficients, every step costs something: the reward is never positive,
      and it is negative when the fridge draws anything. */
  lemma RewardNonPositive(p: SeasonProfile, numRooms: int, hour: int, action: seq<int>)
    requires NonNegative(p) && numRooms >= 0 && Binary(action)
    ensures Reward(p, numRooms, hour, action) <= 0.0
    ensures p.fridge > 0.0 ==> Reward(p, numRooms, hour, action) < 0.0
  {
    var light := action[Light] as real;
    var washing := action[WashingMachine] as real;
    MulNonNegative(light * 0.5, numRooms as real);
    MulNonNegative(light * 0.5 * numRooms as real, p.lighting);
    MulNonNegative(washing * 1.5, p.washingMachine);
    var e := ElectricityUsed(p, numRooms, action);
    assert e >= 1.0 * p.fridge;
    MulNonNegative(action[GasHeating] as real * 3.0, p.gasHeating.GetOr(0.0));
    MulNonNegative(action[GasCooking] as real * 2.0, p.gasCooking.GetOr(0.0));
    var g := GasUsed(p, action);
    assert g >= 0.0;
    var price := ElectricityPrice(hour);
    assert price > 0.0;
    MulNonNegative(e, price);
    MulNonNegative(g, GasPrice / 100.0);
    if p.fridge > 0.0 {
      assert e > 0.0;
      assert e * price > 0.0;
    }
  }

  /** The peak rate applies exactly in the two peak windows and the off-peak
      rate exactly outside them; the two rates differ. */
  lemma PeakPriceWindows(hour: int)
    ensures ElectricityPrice(hour) == PeakPrice / 100.0 <==> (7 <= hour < 17 || 19 <= hour < 23)
    ensures ElectricityPrice(hour) == OffPeakPrice / 100.0 <==> !(7 <= hour < 17 || 19 <= hour < 23)
  {
  }

  /** Winter adds a fixed 2 x 0.30 of heating to electricity; the rest is the
      light, the washing machine and the fridge. */
  lemma WinterBaseLoad(numRooms: int, action: seq<int>)
    requires |action| == 5
    ensures ElectricityUsed(WinterProfile, numRooms, action)
         == action[Light] as real * 0.5 * numRooms as real * 0.08
            + action[WashingMachine] as real * 1.5 * 0.12 + 0.10 + 2.0 * 0.30
  {
  }

  /** Summer adds a fixed 1 x 0.10 of cooling to electricity; the gas heating
      bit costs nothing in summer, since the profile has no gas heating. */
  lemma SummerBaseLoad(numRooms: int, action: seq<int>, bit: int)
    requires |action| == 5
    ensures ElectricityUsed(SummerProfile, numRooms, action)
         == action[Light] as real * 0.5 * numRooms as real * 0.05
            + action[WashingMachine] as real * 1.5 * 0.10 + 0.12 + 1.0 * 0.10
    ensures GasUsed(SummerProfile, action[GasHeating := bit]) == GasUsed(SummerProfile, action)
    ensures GasUsed(SummerProfile, action) == action[GasCooking] as real * 2.0 * 0.8
  {
  }

  /** One tick from the clock after k steps is the clock after k + 1 steps */
  lemma TickAdvances(k: nat)
    ensures Tick(ClockAt(k)) == ClockAt(k + 1)
  {
  }

  /** After n steps from hour 0 of day d the clock reads hour n mod 24 of day d + n div 24 */
  lemma {:induction false} TicksFromMidnight(d: int, n: nat)
    ensures Ticks(Clock(0, d), n) == Clock(n % HoursPerDay, d + n / HoursPerDay)
  {
    if n > 0 {
      TicksFromMidnight(d, n - 1);
    }
  }

  /** 24 steps from midnight add exactly one day and return to hour 0 */
  lemma FullDay(d: int)
    ensures Ticks(Clock(0, d), 24) == Clock(0, d + 1)
  {
    TicksFromMidnight(d, 24);
  }

  /** The hour stays in [0, 24) */
  lemma {:induction false} HourInRange(c: Clock, n: nat)
    requires 0 <= c.hour < HoursPerDay
    ensures 0 <= Ticks(c, n).hour < HoursPerDay
  {
    if n > 0 {
      HourInRange(c, n - 1);
    }
  }

  /** The day counter never goes down */
  lemma {:induction false} DayNeverDecreases(c: Clock, m: nat, n: nat)
    requires m <= n
    ensures Ticks(c, m).day <= Ticks(c, n).day
  {
    if m < n {
      DayNeverDecreases(c, m, n - 1);
    }
  }

  /** From a reset, done is false for the first 2159 steps and true from step 2160 on */
  lemma {:induction false} DoneExactlyFromEpisodeEnd(n: nat)
    ensures Done(Ticks(Clock(0, 0), n)) <==> n >= EpisodeSteps
    ensures Ticks(Clock(0, 0), n) == ClockAt(n)
  {
    TicksFromMidnight(0, n);
  }

  /** Once done, the environment stays done */
  lemma {:induction false} DoneStaysDone(c: Clock, m: nat, n: nat)
    requires m <= n && Done(Ticks(c, m))
    ensures Done(Ticks(c, n))
  {
    DayNeverDecreases(c, m, n);
  }
}
