/** client/src/services/location.ts: the two-stage device position request and
    the mapping of a reverse-geocoding answer to address fields. The browser's
    geolocation service and the HTTP lookup are not modelled: their answers
    are inputs. */
module Location {
  import opened Wrappers
  import opened JsText

  datatype PositionOptions = PositionOptions(enableHighAccuracy: bool, timeout: nat, maximumAge: nat)

  const HighAccuracyOptions: PositionOptions := PositionOptions(true, 15000, 0)
  const LowAccuracyOptions: PositionOptions := PositionOptions(false, 10000, 0)

  /** `GeolocationPositionError` codes. */
  const PERMISSION_DENIED: int := 1
  const POSITION_UNAVAILABLE: int := 2
  const TIMEOUT: int := 3

  /** A position fix; the coordinates are opaque here. */
  datatype Position = Position(latitude: string, longitude: string)

  /** The state of the promise `getCurrentPosition` returns. */
  datatype Settlement = Pending | Resolved(position: Position) | Rejected(message: string)

  const NotSupportedMessage: string := "Geolocation is not supported by your browser"
  const PermissionDeniedMessage: string := "Location permission denied. Please enable it in settings."

  /** The message of the final rejection after the low-accuracy attempt failed. */
  function LowAccuracyMessage(code: int): string {
    if code == PERMISSION_DENIED then "User denied the request for Geolocation."
    else if code == POSITION_UNAVAILABLE then "Location information is unavailable. Check your GPS."
    else if code == TIMEOUT then "The request to get user location timed out."
    else "Unable to retrieve location."
  }

  /** One call of `getCurrentPosition`: the device requests it has issued and
      how its promise has settled. The browser answers each outstanding
      request by calling exactly one of its two callbacks. */
  class PositionRequest {
    var requests: seq<PositionOptions>
    var settlement: Settlement

    ghost predicate Valid()
      reads this
    {
      && |requests| <= 2
      && (|requests| >= 1 ==> requests[0] == HighAccuracyOptions)
      && (|requests| == 2 ==> requests[1] == LowAccuracyOptions)
      && (settlement.Pending? ==> |requests| >= 1)
    }

    /** The synchronous part of `getCurrentPosition`. */
    constructor (supported: bool)
      ensures Valid()
      ensures !supported ==> requests == [] && settlement == Rejected(NotSupportedMessage)
      ensures supported ==> requests == [HighAccuracyOptions] && settlement == Pending
    {
      if !supported {
        requests := [];
        settlement := Rejected(NotSupportedMessage);
      } else {
        requests := [HighAccuracyOptions];
        settlement := Pending;
      }
    }

    /** `onSuccess`, for either stage. */
    method OnSuccess(p: Position)
      requires Valid() && settlement.Pending?
      modifies this
      ensures Valid()
      ensures requests == old(requests) && settlement == Resolved(p)
    {
      settlement := Resolved(p);
    }

    /** `onErrorHighAccuracy` while the first request is outstanding,
        `onErrorLowAccuracy` while the second is. */
    method OnError(code: int)
      requires Valid() && settlement.Pending?
      modifies this
      ensures Valid()
      ensures old(|requests|) == 1 && code == PERMISSION_DENIED ==>
                requests == old(requests) && settlement == Rejected(PermissionDeniedMessage)
      ensures old(|requests|) == 1 && code != PERMISSION_DENIED ==>
                requests == old(requests) + [LowAccuracyOptions] && settlement == Pending
      ensures old(|requests|) == 2 ==>
                requests == old(requests) && settlement == Rejected(LowAccuracyMessage(code))
    {
      if |requests| == 1 {
        if code == PERMISSION_DENIED {
          settlement := Rejected(PermissionDeniedMessage);
        } else {
          requests := requests + [LowAccuracyOptions];
        }
      } else {
        settlement := Rejected(LowAccuracyMessage(code));
      }
    }
  }

  /** What the device answers to one request. */
  datatype Answer = Fix(position: Position) | Fail(code: int)

  /** How a call of `getCurrentPosition` settles, stated answer by answer:
      no support rejects at once; a first fix resolves; a first permission
      denial rejects without a retry; any other first failure defers to the
      second, low-accuracy answer. */
  function PositionOutcome(supported: bool, first: Answer, second: Answer): Settlement {
    if !supported then Rejected(NotSupportedMessage)
    else match first
      case Fix(p) => Resolved(p)
      case Fail(c) =>
        if c == PERMISSION_DENIED then Rejected(PermissionDeniedMessage)
        else match second
          case Fix(p) => Resolved(p)
          case Fail(c2) => Rejected(LowAccuracyMessage(c2))
  }

  /** One whole call of `getCurrentPosition` against a device that gives
      `first` to the first request and `second` to a second one, if issued. */
  method GetCurrentPosition(supported: bool, first: Answer, second: Answer)
    returns (settled: Settlement, requests: seq<PositionOptions>)
    ensures |requests| <= 2 && !settled.Pending?
    ensures settled == PositionOutcome(supported, first, second)
    ensures !supported ==> requests == [] && settled == Rejected(NotSupportedMessage)
    ensures supported ==> |requests| >= 1 && requests[0] == HighAccuracyOptions
    ensures supported && first.Fix? ==> requests == [HighAccuracyOptions] && settled == Resolved(first.position)
    ensures supported && first == Fail(PERMISSION_DENIED) ==>
              requests == [HighAccuracyOptions] && settled == Rejected(PermissionDeniedMessage)
    ensures supported && first.Fail? && first.code != PERMISSION_DENIED ==>
              requests == [HighAccuracyOptions, LowAccuracyOptions] &&
              settled == (if second.Fix? then Resolved(second.position) else Rejected(LowAccuracyMessage(second.code)))
  {
    var call := new PositionRequest(supported);
    if call.settlement.Pending? {
      match first
      case Fix(p) => call.OnSuccess(p);
      case Fail(c) => call.OnError(c);
    }
    if call.settlement.Pending? {
      match second
      case Fix(p) => call.OnSuccess(p);
      case Fail(c) => call.OnError(c);
    }
    settled, requests := call.settlement, call.requests;
  }

  // ---- reverseGeocode ----

  /** The `address` object of the lookup answer; absent properties are `None`. */
  datatype Address = Address(
    city: Option<string>, state_district: Option<string>, county: Option<string>,
    town: Option<string>, suburb: Option<string>, village: Option<string>,
    state: Option<string>, postcode: Option<string>)

  datatype GeocodeData = GeocodeData(address: Option<Address>)

  /** The fields the form is autofilled with. */
  datatype AddressFill = AddressFill(city: string, state: string, zipCode: string, country: string)

  predicate TruthyOpt(o: Option<string>) {
    o.Some? && Truthy(o.value)
  }

  /** `a || rest` for a possibly absent string. */
  function OrElse(a: Option<string>, rest: string): string {
    if TruthyOpt(a) then a.value else rest
  }

  /** The city candidates in the order the lookup answer is consulted. */
  function CityCandidates(a: Address): seq<Option<string>> {
    [a.city, a.state_district, a.county, a.town, a.suburb, a.village]
  }

  /** `v` is the first truthy candidate, or "" when no candidate is truthy. */
  ghost predicate IsFirstTruthy(cands: seq<Option<string>>, v: string) {
    || ((forall k :: 0 <= k < |cands| ==> !TruthyOpt(cands[k])) && v == "")
    || (exists k :: 0 <= k < |cands| && TruthyOpt(cands[k]) && v == cands[k].value &&
                    forall j :: 0 <= j < k ==> !TruthyOpt(cands[j]))
  }

  const AddressNotFound: string := "Address not found"

  /** The mapping `reverseGeocode` applies to the parsed lookup answer. */
  function ReverseGeocodeFields(data: Option<GeocodeData>): (r: Result<AddressFill, string>)
    ensures (data.None? || data.value.address.None?) <==> r == Failure(AddressNotFound)
    ensures r.Success? ==> IsFirstTruthy(CityCandidates(data.value.address.value), r.value.city)
    ensures r.Success? ==> r.value.state == OrElse(data.value.address.value.state, "")
    ensures r.Success? ==> r.value.zipCode == OrElse(data.value.address.value.postcode, "")
    ensures r.Success? ==> r.value.country == "India"
  {
    if data.None? || data.value.address.None? then Failure(AddressNotFound)
    else
      var addr := data.value.address.value;
      var city := OrElse(addr.city, OrElse(addr.state_district, OrElse(addr.county,
                    OrElse(addr.town, OrElse(addr.suburb, OrElse(addr.village, ""))))));
      CityChain(addr);
      Success(AddressFill(city, OrElse(addr.state, ""), OrElse(addr.postcode, ""), "India"))
  }

  /** The `||` chain over a list of candidates. */
  function FirstTruthy(cands: seq<Option<string>>): string {
    if cands == [] then "" else OrElse(cands[0], FirstTruthy(cands[1..]))
  }

  lemma {:induction false} FirstTruthyIsFirst(cands: seq<Option<string>>)
    ensures IsFirstTruthy(cands, FirstTruthy(cands))
  {
    if cands != [] {
      var rest := cands[1..];
      FirstTruthyIsFirst(rest);
      if !TruthyOpt(cands[0]) {
        if forall k :: 0 <= k < |rest| ==> !TruthyOpt(rest[k]) {
          forall k | 0 <= k < |cands| ensures !TruthyOpt(cands[k]) {
            if k > 0 { assert cands[k] == rest[k - 1]; }
          }
        } else {
          var k :| 0 <= k < |rest| && TruthyOpt(rest[k]) && FirstTruthy(rest) == rest[k].value &&
                   forall j :: 0 <= j < k ==> !TruthyOpt(rest[j]);
          assert cands[k + 1] == rest[k];
          forall j | 0 <= j < k + 1 ensures !TruthyOpt(cands[j]) {
            if j > 0 { assert cands[j] == rest[j - 1]; }
          }
        }
      }
    }
  }

  lemma CityChain(a: Address)
    ensures OrElse(a.city, OrElse(a.state_district, OrElse(a.county,
              OrElse(a.town, OrElse(a.suburb, OrElse(a.village, ""))))))
            == FirstTruthy(CityCandidates(a))
    ensures IsFirstTruthy(CityCandidates(a), FirstTruthy(CityCandidates(a)))
  {
    var c := CityCandidates(a);
    var c5: seq<Option<string>> := [a.village];
    var c4 := [a.suburb] + c5;
    var c3 := [a.town] + c4;
    var c2 := [a.county] + c3;
    var c1 := [a.state_district] + c2;
    assert c5[1..] == [];
    assert c4[1..] == c5 && c3[1..] == c4 && c2[1..] == c3 && c1[1..] == c2 && c[1..] == c1;
    assert FirstTruthy(c5) == OrElse(a.village, "");
    assert FirstTruthy(c4) == OrElse(a.suburb, FirstTruthy(c5));
    assert FirstTruthy(c3) == OrElse(a.town, FirstTruthy(c4));
    assert FirstTruthy(c2) == OrElse(a.county, FirstTruthy(c3));
    assert FirstTruthy(c1) == OrElse(a.state_district, FirstTruthy(c2));
    assert FirstTruthy(c) == OrElse(a.city, FirstTruthy(c1));
    FirstTruthyIsFirst(c);
  }
}
