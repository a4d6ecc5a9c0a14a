/** Configuration (`ConfigManager`): the comma-separated address list and the two
    integer settings read from the environment, and their ordered validation. */
module Config {
  import opened Wrappers
  import opened Text

  /** `IpAddresses`, `Brightness`, `Temperature`. */
  datatype Settings = Settings(addresses: seq<string>, brightness: int, temperature: int)

  /** A freshly constructed manager: no addresses, both integers at their default 0. */
  const Unloaded: Settings := Settings([], 0, 0)

  /** The three validation failures, in the order they are checked. */
  datatype ConfigError = NoAddresses | InvalidBrightness | InvalidTemperature

  /** Value used for a missing integer setting (`Env.GetInt(key, -1)`). */
  const Missing: int := -1

  /** `LoadConfig`, given what the environment holds: the raw `ip_addresses` string
      (`None` when unset) and the two integer settings (`None` when unset). A non-blank
      address string is split on ',' and the pieces are appended. */
  function LoadConfig(c: Settings, ipList: Option<string>, brightness: Option<int>, temperature: Option<int>): (r: Settings)
    ensures IsNullOrWhiteSpace(ipList) ==> r.addresses == c.addresses
    ensures !IsNullOrWhiteSpace(ipList) ==>
      && |r.addresses| > |c.addresses|
      && r.addresses[..|c.addresses|] == c.addresses
      && Join(r.addresses[|c.addresses|..], ',') == ipList.value
      && (forall i :: |c.addresses| <= i < |r.addresses| ==> ',' !in r.addresses[i])
    ensures r.brightness == (if brightness.Some? then brightness.value else Missing)
    ensures r.temperature == (if temperature.Some? then temperature.value else Missing)
  {
    var addresses := if IsNullOrWhiteSpace(ipList) then c.addresses else c.addresses + Split(ipList.value, ',');
    assert !IsNullOrWhiteSpace(ipList) ==> addresses[|c.addresses|..] == Split(ipList.value, ',');
    Settings(addresses, brightness.GetOr(Missing), temperature.GetOr(Missing))
  }

  /** The conditions a usable configuration meets. */
  predicate Valid(c: Settings) {
    && |c.addresses| > 0
    && 1 <= c.brightness <= 100
    && 143 <= c.temperature <= 344
  }

  /** `ValidateConfig`: the first failing check, in source order, or `Pass`. */
  function ValidateConfig(c: Settings): (r: Outcome<ConfigError>)
    ensures r == Pass <==> Valid(c)
    ensures r == Fail(NoAddresses) <==> |c.addresses| == 0
    ensures r == Fail(InvalidBrightness) <==> |c.addresses| > 0 && !(1 <= c.brightness <= 100)
    ensures r == Fail(InvalidTemperature) <==>
      |c.addresses| > 0 && 1 <= c.brightness <= 100 && !(143 <= c.temperature <= 344)
  {
    if |c.addresses| == 0 then Fail(NoAddresses)
    else if c.brightness < 1 || c.brightness > 100 then Fail(InvalidBrightness)
    else if c.temperature < 143 || c.temperature > 344 then Fail(InvalidTemperature)
    else Pass
  }

  /** A missing brightness or temperature always makes the loaded configuration fail. */
  lemma MissingSettingFails(c: Settings, ipList: Option<string>, brightness: Option<int>, temperature: Option<int>)
    requires brightness.None? || temperature.None?
    ensures ValidateConfig(LoadConfig(c, ipList, brightness, temperature)).Fail?
  {
  }

  /** On the first load, a null or blank address string leaves the list empty, and that
      is the error reported, whatever the integers are. */
  lemma BlankAddressesFailFirst(ipList: Option<string>, brightness: Option<int>, temperature: Option<int>)
    requires IsNullOrWhiteSpace(ipList)
    ensures ValidateConfig(LoadConfig(Unloaded, ipList, brightness, temperature)) == Fail(NoAddresses)
  {
  }

  /** The appended addresses are exactly the comma-separated pieces of the string: a list
      of comma-free addresses joined with ',' loads back as that list. */
  lemma {:induction false} LoadRecoversJoinedList(addrs: seq<string>, brightness: Option<int>, temperature: Option<int>)
    requires |addrs| >= 1 && forall i :: 0 <= i < |addrs| ==> ',' !in addrs[i]
    requires !IsNullOrWhiteSpace(Some(Join(addrs, ',')))
    ensures LoadConfig(Unloaded, Some(Join(addrs, ',')), brightness, temperature).addresses == addrs
  {
    SplitJoin(addrs, ',');
    assert [] + Split(Join(addrs, ','), ',') == addrs;
  }

  /** No trimming and empty pieces kept: an address string of one comma passes the
      address check with two empty addresses. */
  lemma LoneCommaGivesTwoEmptyAddresses(brightness: Option<int>, temperature: Option<int>)
    ensures LoadConfig(Unloaded, Some(","), brightness, temperature).addresses == ["", ""]
    ensures ValidateConfig(LoadConfig(Unloaded, Some(","), brightness, temperature)) != Fail(NoAddresses)
  {
    assert !IsWhiteSpace(","[0]);
    assert !IsBlank(",");
    assert ","[1..] == "";
    assert Split(",", ',') == [""] + Split("", ',');
  }

  /** The number of addresses a non-blank string adds is one more than its commas. */
  lemma LoadedAddressCount(c: Settings, ipList: Option<string>, brightness: Option<int>, temperature: Option<int>)
    requires !IsNullOrWhiteSpace(ipList)
    ensures |LoadConfig(c, ipList, brightness, temperature).addresses| == |c.addresses| + CountChar(ipList.value, ',') + 1
  {
    SplitCount(ipList.value, ',');
  }
}
