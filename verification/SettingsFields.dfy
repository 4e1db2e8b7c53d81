/** The nineteen public settings and the values the settings journal accepts for them. */
module SettingsFields {
  import opened Crash

  datatype Key =
    | ScreenName | Port | Interface | LogLevel | LogToFile | LogFilename | ReceiveDirectory
    | WizardLastRun | Language | StartedBefore | AutoConfig | ElevateMode | ElevateModeEnum
    | AutoConfigPrompted | CryptoEnabled | RequireClientCertificate | AutoHide | AutoStart | MinimizeToTray

  datatype Value = Text(text: string) | Number(number: int) | Flag(flag: bool)

  type State = map<Key, Value>

  /** `publicKeys`, in the order `apply` writes them. */
  function PublicKeys(): (keys: seq<Key>)
    ensures forall key: Key :: key in keys
  {
    var keys := [ScreenName, Port, Interface, LogLevel, LogToFile, LogFilename, ReceiveDirectory,
                 WizardLastRun, Language, StartedBefore, AutoConfig, ElevateMode, ElevateModeEnum,
                 AutoConfigPrompted, CryptoEnabled, RequireClientCertificate, AutoHide, AutoStart, MinimizeToTray];
    assert forall key: Key :: key in keys by {
      forall key: Key ensures key in keys {
        assert key == keys[Rank(key)];
      }
    }
    keys
  }

  function Rank(key: Key): (i: nat)
    ensures i < 19
  {
    match key
    case ScreenName => 0 case Port => 1 case Interface => 2 case LogLevel => 3 case LogToFile => 4
    case LogFilename => 5 case ReceiveDirectory => 6 case WizardLastRun => 7 case Language => 8
    case StartedBefore => 9 case AutoConfig => 10 case ElevateMode => 11 case ElevateModeEnum => 12
    case AutoConfigPrompted => 13 case CryptoEnabled => 14 case RequireClientCertificate => 15
    case AutoHide => 16 case AutoStart => 17 case MinimizeToTray => 18
  }

  predicate ValidValue(key: Key, value: Value) {
    match key
    case ScreenName | Interface | LogFilename | ReceiveDirectory | Language => value.Text?
    case Port | LogLevel | WizardLastRun | ElevateModeEnum => value.Number?
    case _ => value.Flag? || value == Text("true") || value == Text("false")
  }

  /** The types of the nineteen settings; a flag may also be written out. */
  lemma FieldTypes(key: Key, value: Value)
    ensures ValidValue(key, value) <==>
      || (value.Text? && key in {ScreenName, Interface, LogFilename, ReceiveDirectory, Language})
      || (value.Number? && key in {Port, LogLevel, WizardLastRun, ElevateModeEnum})
      || ((value.Flag? || value == Text("true") || value == Text("false"))
          && key in {LogToFile, StartedBefore, AutoConfig, ElevateMode, AutoConfigPrompted, CryptoEnabled,
                     RequireClientCertificate, AutoHide, AutoStart, MinimizeToTray})
  {
    match key {
      case ScreenName | Interface | LogFilename | ReceiveDirectory | Language =>
      case Port | LogLevel | WizardLastRun | ElevateModeEnum =>
      case _ =>
        assert key in {LogToFile, StartedBefore, AutoConfig, ElevateMode, AutoConfigPrompted, CryptoEnabled,
                       RequireClientCertificate, AutoHide, AutoStart, MinimizeToTray};
    }
  }

  predicate ValidState(state: State) {
    forall key <- state.Keys :: ValidValue(key, state[key])
  }

  function At(state: State, key: Key): Option<Value> {
    if key in state then Some(state[key]) else None
  }

  /** `fieldsBelongToTransaction`: every public key holds what one of the two states holds there. */
  predicate Mixed(current: State, original: State, candidate: State) {
    forall key: Key :: At(current, key) == At(original, key) || At(current, key) == At(candidate, key)
  }

  /** One field of `state` written over `fields`, or removed where `state` has none. */
  function Put(fields: State, state: State, key: Key): (r: State)
    ensures At(r, key) == At(state, key)
    ensures forall other :: other != key ==> At(r, other) == At(fields, other)
    ensures ValidState(fields) && ValidState(state) ==> ValidState(r)
  {
    if key in state then fields[key := state[key]] else fields - {key}
  }

  lemma SameEverywhere(a: State, b: State)
    requires forall key :: At(a, key) == At(b, key)
    ensures a == b
  {
    forall key
      ensures key in a <==> key in b
      ensures key in a ==> a[key] == b[key]
    {
      assert At(a, key) == At(b, key);
    }
  }

  lemma MixedOfSame(current: State, state: State)
    requires Mixed(current, state, state)
    ensures current == state
  {
    SameEverywhere(current, state);
  }

  /** A mixture of two valid states is a valid state. */
  lemma MixedValid(current: State, original: State, candidate: State)
    requires ValidState(original) && ValidState(candidate) && Mixed(current, original, candidate)
    ensures ValidState(current)
  {
    forall key | key in current
      ensures ValidValue(key, current[key])
    {
      assert At(current, key) == At(original, key) || At(current, key) == At(candidate, key);
    }
  }
}
