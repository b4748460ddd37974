/**
 * The actor system's name check and construction sequence.
 *
 * `NewActorSystem` accepts a name only when it matches the Go regular
 * expression `^[a-zA-Z0-9][a-zA-Z0-9-_]*$` (in the class `[a-zA-Z0-9-_]` the
 * `-` after the range `0-9` is a literal hyphen), and only then builds the
 * system field by field. What the collaborators it calls return (settings
 * parsing, provider creation, provider start-up) is passed in as parameters.
 */
module ActorSystem {
  import opened Wrappers

  type Config
  type Settings
  type Provider
  type ActorPath

  datatype Error =
    | ErrInvalidActorSystemName
    | ErrCreateActorRefProviderFailure
    /** An error a collaborator returned, with its text. */
    | Failed(reason: string)

  // The name pattern.

  /** `[a-zA-Z0-9]` */
  predicate IsAsciiLetterOrDigit(c: char)
  {
    'a' <= c <= 'z' || 'A' <= c <= 'Z' || '0' <= c <= '9'
  }

  /** `[a-zA-Z0-9-_]` */
  predicate IsNameChar(c: char)
  {
    IsAsciiLetterOrDigit(c) || c == '-' || c == '_'
  }

  /** `[a-zA-Z0-9-_]*$`: matches the rest of the name, one character at a time, up to its end. */
  predicate MatchesNameTail(s: string)
  {
    s == [] || (IsNameChar(s[0]) && MatchesNameTail(s[1..]))
  }

  /** `^[a-zA-Z0-9][a-zA-Z0-9-_]*$` */
  predicate MatchesNamePattern(name: string)
  {
    |name| > 0 && IsAsciiLetterOrDigit(name[0]) && MatchesNameTail(name[1..])
  }

  /** The starred class matches exactly the strings made only of name characters. */
  lemma {:induction false} NameTailIff(s: string)
    ensures MatchesNameTail(s) <==> forall i :: 0 <= i < |s| ==> IsNameChar(s[i])
  {
    if s != [] {
      NameTailIff(s[1..]);
      assert forall i :: 1 <= i < |s| ==> s[i] == s[1..][i - 1];
    }
  }

  /**
   * A name is accepted exactly when it is non-empty, starts with an ASCII
   * letter or digit, and every later character is an ASCII letter, digit, `-`
   * or `_`.
   */
  lemma NamePatternIff(name: string)
    ensures MatchesNamePattern(name) <==>
      && |name| > 0
      && IsAsciiLetterOrDigit(name[0])
      && forall i :: 1 <= i < |name| ==> IsNameChar(name[i])
  {
    if |name| > 0 {
      NameTailIff(name[1..]);
      assert forall i :: 1 <= i < |name| ==> name[i] == name[1..][i - 1];
    }
  }

  /** The empty name and names starting with `-` or `_` are rejected. */
  lemma RejectsBadStart(name: string)
    requires name == [] || name[0] == '-' || name[0] == '_'
    ensures !MatchesNamePattern(name)
  {
  }

  /** A name character appended to an accepted name keeps it accepted. */
  lemma {:induction false} AppendNameChar(name: string, c: char)
    requires MatchesNamePattern(name) && IsNameChar(c)
    ensures MatchesNamePattern(name + [c])
  {
    NamePatternIff(name);
    NamePatternIff(name + [c]);
  }

  /** Every non-empty prefix of an accepted name is accepted. */
  lemma {:induction false} PrefixOfAcceptedName(name: string, n: nat)
    requires MatchesNamePattern(name) && 1 <= n <= |name|
    ensures MatchesNamePattern(name[..n])
  {
    NamePatternIff(name);
    NamePatternIff(name[..n]);
  }

  /** A name with any character outside the name class anywhere is rejected. */
  lemma RejectsForeignChar(name: string, i: nat)
    requires i < |name| && !IsNameChar(name[i])
    ensures !MatchesNamePattern(name)
  {
    NamePatternIff(name);
  }

  lemma AcceptedNameExamples()
    ensures MatchesNamePattern("sys-1_A")
    ensures MatchesNamePattern("9")
  {
  }

  lemma RejectedNameExamples()
    ensures !MatchesNamePattern("_sys")
    ensures !MatchesNamePattern("my system")
    ensures !MatchesNamePattern("sys.tem")
    ensures !MatchesNamePattern("sys\n")
  {
  }

  // Equality against an arbitrary value.

  /** The dynamic value passed to Equals: an ActorPath or anything else. */
  datatype Value = PathValue(path: ActorPath) | OtherValue

  /**
   * `Equals`: false for any argument that is not an ActorPath; for an
   * ActorPath, whether `CompareTo` ranks it level with the system's path.
   */
  function Equals(path: ActorPath, that: Value, compareTo: (ActorPath, ActorPath) -> int): (r: bool)
    ensures that.OtherValue? ==> !r
    ensures that.PathValue? ==> (r <==> compareTo(path, that.path) == 0)
  {
    match that
    case PathValue(other) => compareTo(path, other) == 0
    case OtherValue => false
  }

  /** With an antisymmetric CompareTo, Equals is symmetric between two paths. */
  lemma EqualsSymmetric(a: ActorPath, b: ActorPath, compareTo: (ActorPath, ActorPath) -> int)
    requires compareTo(a, b) == -compareTo(b, a)
    ensures Equals(a, PathValue(b), compareTo) == Equals(b, PathValue(a), compareTo)
  {
  }

  // Construction.

  /** What creating the configured provider class yields, before the type assertion. */
  datatype CreatedInstance = IsProvider(provider: Provider) | NotAProvider

  class ActorSystemImpl {
    const name: string
    var settings: Option<Settings>
    var eventStreamStarted: bool
    var provider: Option<Provider>
    var mailboxesConfigured: bool
    var dispatchersConfigured: bool

    /** The fields the constructor literal sets; clock, class loader and dynamic access are not part of this model. */
    constructor (name: string)
      ensures this.name == name
      ensures settings == None && provider == None
      ensures !eventStreamStarted && !mailboxesConfigured && !dispatchersConfigured
    {
      this.name := name;
      settings := None;
      eventStreamStarted := false;
      provider := None;
      mailboxesConfigured := false;
      dispatchersConfigured := false;
    }

    function Name(): (r: string)
    {
      name
    }

    /** Stores the settings built for this name and configuration, or returns their error. */
    method ConfigureSettings(newSettings: Result<Settings, string>) returns (err: Option<Error>)
      modifies this`settings
      ensures newSettings.Failure? ==> err == Some(Failed(newSettings.error)) && settings == old(settings)
      ensures newSettings.Success? ==> err == None && settings == Some(newSettings.value)
    {
      if newSettings.Failure? {
        return Some(Failed(newSettings.error));
      }
      settings := Some(newSettings.value);
      err := None;
    }

    /** Creates the event stream and starts the standard-output logger; never fails. */
    method ConfigureEventStream() returns (err: Option<Error>)
      requires settings.Some?
      modifies this`eventStreamStarted
      ensures eventStreamStarted && err == None
    {
      eventStreamStarted := true;
      err := None;
    }

    /** Stores the created provider, or returns an error when creation failed or produced something else. */
    method ConfigureProvider(created: Result<CreatedInstance, string>) returns (err: Option<Error>)
      modifies this`provider
      ensures created.Failure? ==> err == Some(Failed(created.error)) && provider == old(provider)
      ensures created == Success(NotAProvider) ==> err == Some(ErrCreateActorRefProviderFailure) && provider == old(provider)
      ensures created.Success? && created.value.IsProvider? ==> err == None && provider == Some(created.value.provider)
    {
      if created.Failure? {
        return Some(Failed(created.error));
      }
      match created.value
      case NotAProvider =>
        err := Some(ErrCreateActorRefProviderFailure);
      case IsProvider(p) =>
        provider := Some(p);
        err := None;
    }

    method ConfigureMailboxes()
      modifies this`mailboxesConfigured
      ensures mailboxesConfigured
    {
      mailboxesConfigured := true;
    }

    method ConfigureDispatchers()
      modifies this`dispatchersConfigured
      ensures dispatchersConfigured
    {
      dispatchersConfigured := true;
    }
  }

  /** How `NewActorSystem` ends: it returns, or it panics on a nil provider in Start. */
  datatype Construction =
    | Returned(system: ActorSystemImpl?, err: Option<Error>)
    | NilProviderPanic

  function ErrorOf(e: Option<string>): (r: Option<Error>)
  {
    match e
    case None => None
    case Some(reason) => Some(Failed(reason))
  }

  /**
   * `NewActorSystem`, with what its collaborators return as parameters:
   * `newSettings` from building the settings, `created` from instantiating the
   * provider class, `providerInit` from the provider's Init during Start.
   * The error of ConfigureProvider is not checked, so when no provider was
   * stored Start dereferences a nil provider.
   */
  method NewActorSystem(name: string, config: seq<Config>, newSettings: Result<Settings, string>,
                        created: Result<CreatedInstance, string>, providerInit: Option<string>)
    returns (c: Construction)
    ensures !MatchesNamePattern(name) ==> c == Returned(null, Some(ErrInvalidActorSystemName))
    ensures MatchesNamePattern(name) ==> c != Returned(null, Some(ErrInvalidActorSystemName))
    ensures MatchesNamePattern(name) && newSettings.Failure? ==>
      c == Returned(null, Some(Failed(newSettings.error)))
    ensures MatchesNamePattern(name) && newSettings.Success? && !(created.Success? && created.value.IsProvider?) ==>
      c == NilProviderPanic
    ensures MatchesNamePattern(name) && newSettings.Success? && created.Success? && created.value.IsProvider? ==>
      && c.Returned? && c.system != null && fresh(c.system)
      && c.system.Name() == name
      && c.system.settings == Some(newSettings.value)
      && c.system.provider == Some(created.value.provider)
      && c.system.eventStreamStarted && c.system.mailboxesConfigured && c.system.dispatchersConfigured
      && c.err == ErrorOf(providerInit)
  {
    if !MatchesNamePattern(name) {
      return Returned(null, Some(ErrInvalidActorSystemName));
    }
    var sys := new ActorSystemImpl(name);
    var err := sys.ConfigureSettings(newSettings);
    if err.Some? {
      return Returned(null, err);
    }
    err := sys.ConfigureEventStream();
    if err.Some? {
      return Returned(null, err);
    }
    var _ := sys.ConfigureProvider(created);
    sys.ConfigureMailboxes();
    sys.ConfigureDispatchers();
    // Start: the provider's Init, called through a possibly nil provider.
    if sys.provider.None? {
      return NilProviderPanic;
    }
    c := Returned(sys, ErrorOf(providerInit));
  }
}
