/** The application's exception hierarchy (`src/exceptions.py`). Every
    exception stores a `message` built once by its constructor from the
    arguments, using Python truthiness on the optional ones, and a few
    classes also keep some arguments as attributes. `str(e)` is the class
    name, a colon and a space, and the message. */
module Exceptions {
  import opened Builtins

  datatype ExcClass =
    | Base | Config | Server | Client | ClientConfig | ClientProtocol | Security | SSL | FileSystem

  function ClassName(c: ExcClass): string
  {
    match c
    case Base => "AppBaseException"
    case Config => "ConfigError"
    case Server => "ServerError"
    case Client => "ClientError"
    case ClientConfig => "ClientConfigError"
    case ClientProtocol => "ClientProtocolError"
    case Security => "SecurityError"
    case SSL => "SSLError"
    case FileSystem => "FileSystemError"
  }

  /** The direct base class, within the application's hierarchy. */
  function Parent(c: ExcClass): Option<ExcClass>
  {
    match c
    case Base => None
    case ClientConfig | ClientProtocol => Some(Client)
    case SSL => Some(Security)
    case _ => Some(Base)
  }

  function Depth(c: ExcClass): nat
  {
    match c
    case Base => 0
    case ClientConfig | ClientProtocol | SSL => 2
    case _ => 1
  }

  /** `issubclass(c, d)`: what an `except d` clause catches. */
  predicate IsSubclass(c: ExcClass, d: ExcClass)
    decreases Depth(c)
  {
    c == d || (Parent(c).Some? && IsSubclass(Parent(c).value, d))
  }

  /** An exception object: its class, its `message` attribute and the other
      attributes its constructor set. */
  datatype AppException = AppException(cls: ExcClass, message: PyValue, attrs: map<string, PyValue>)

  /** `str(e)`. */
  function StrOf(e: AppException): string
  {
    ClassName(e.cls) + ": " + Format(e.message)
  }

  /** `AppBaseException(message)`. */
  function AppBaseException(message: PyValue): (e: AppException)
    ensures e.cls == Base && e.message == message && e.attrs == map[]
  {
    AppException(Base, message, map[])
  }

  /** `ConfigError(section=None, key=None, value=None, message=None)`. */
  function ConfigError(section: PyValue, key: PyValue, value: PyValue, message: PyValue): (e: AppException)
    ensures e.cls == Config && e.attrs == map[]
  {
    var m :=
      if Truthy(message) then message
      else if Truthy(section) && Truthy(key) then
        Str("Invalid config value for [" + Format(section) + "]->" + Format(key)
            + (if Truthy(value) then " = '" + Format(value) + "'" else ""))
      else Str("Configuration error");
    AppException(Config, m, map[])
  }

  /** `ServerError(operation, reason, details=None)`. */
  function ServerError(operation: PyValue, reason: PyValue, details: PyValue): (e: AppException)
    ensures e.cls == Server
    ensures e.attrs == map["operation" := operation, "reason" := reason, "details" := details]
  {
    var m := "Server error during " + Format(operation) + ": " + Format(reason)
             + (if Truthy(details) then " | Details: " + Format(details) else "");
    AppException(Server, Str(m), map["operation" := operation, "reason" := reason, "details" := details])
  }

  /** What `ClientError.__init__` does for `ClientError` and its subclasses
      (`cls`): unpack `(ip, port)` and prefix the reason with them. */
  function ClientErrorOf(cls: ExcClass, clientInfo: (PyValue, PyValue), reason: PyValue): (e: AppException)
    requires IsSubclass(cls, Client)
    ensures e.cls == cls
    ensures e.attrs == map["client_ip" := clientInfo.0, "client_port" := clientInfo.1, "reason" := reason]
  {
    var (ip, port) := clientInfo;
    var m := "Client error (" + Format(ip) + ":" + Format(port) + "): " + Format(reason);
    AppException(cls, Str(m), map["client_ip" := ip, "client_port" := port, "reason" := reason])
  }

  /** `ClientError(client_info, reason)`. */
  function ClientError(clientInfo: (PyValue, PyValue), reason: PyValue): (e: AppException)
    ensures e.cls == Client && "reason" in e.attrs && e.attrs["reason"] == reason
  {
    ClientErrorOf(Client, clientInfo, reason)
  }

  /** The reason `ClientConfigError` passes up. */
  function ClientConfigReason(key: PyValue, value: PyValue): string
  {
    "Invalid config"
    + (if !Truthy(key) then ""
       else if Truthy(value) then " [" + Format(key) + "='" + Format(value) + "']"
       else " [" + Format(key) + "]")
  }

  /** `ClientConfigError(client_info, key=None, value=None)`. */
  function ClientConfigError(clientInfo: (PyValue, PyValue), key: PyValue, value: PyValue): (e: AppException)
    ensures e.cls == ClientConfig && "reason" in e.attrs && e.attrs["reason"] == Str(ClientConfigReason(key, value))
  {
    ClientErrorOf(ClientConfig, clientInfo, Str(ClientConfigReason(key, value)))
  }

  /** `ClientProtocolError(client_info, violation)`. */
  function ClientProtocolError(clientInfo: (PyValue, PyValue), violation: PyValue): (e: AppException)
    ensures e.cls == ClientProtocol && "reason" in e.attrs && e.attrs["reason"] == Str("Protocol violation: " + Format(violation))
  {
    ClientErrorOf(ClientProtocol, clientInfo, Str("Protocol violation: " + Format(violation)))
  }

  /** What `SecurityError.__init__` does for `SecurityError` and `SSLError`. */
  function SecurityErrorOf(cls: ExcClass, mechanism: PyValue, reason: PyValue): (e: AppException)
    requires IsSubclass(cls, Security)
    ensures e.cls == cls && e.attrs == map[]
  {
    AppException(cls, Str(Format(mechanism) + " security failure: " + Format(reason)), map[])
  }

  /** `SecurityError(mechanism, reason)`. */
  function SecurityError(mechanism: PyValue, reason: PyValue): (e: AppException)
    ensures e.cls == Security && e.attrs == map[]
  {
    SecurityErrorOf(Security, mechanism, reason)
  }

  /** `SSLError(operation, reason)`. */
  function SSLError(operation: PyValue, reason: PyValue): (e: AppException)
    ensures e.cls == SSL && e.attrs == map[]
  {
    SecurityErrorOf(SSL, Str("SSL"), Str(Format(operation) + " failed - " + Format(reason)))
  }

  /** `FileSystemError(operation, path, reason)`. */
  function FileSystemError(operation: PyValue, path: PyValue, reason: PyValue): (e: AppException)
    ensures e.cls == FileSystem && e.attrs == map["path" := path, "operation" := operation]
  {
    var m := "File error during " + Format(operation) + " '" + Format(path) + "': " + Format(reason);
    AppException(FileSystem, Str(m), map["path" := path, "operation" := operation])
  }

  // ---------------------------------------------------------------------
  // Properties of the hierarchy and of the messages

  /** Every class is an `AppBaseException`; the two client subclasses are
      `ClientError`s and `SSLError` is a `SecurityError`, so an `except` on
      the base class catches them. */
  lemma {:induction false} Hierarchy(c: ExcClass)
    ensures IsSubclass(c, Base)
    ensures IsSubclass(c, Client) <==> c in {Client, ClientConfig, ClientProtocol}
    ensures IsSubclass(c, Security) <==> c in {Security, SSL}
  {
    match c {
      case Base =>
      case ClientConfig | ClientProtocol =>
        assert IsSubclass(Client, Base);
        assert !IsSubclass(Client, Security) by {
          assert !IsSubclass(Base, Security);
        }
      case SSL =>
        assert IsSubclass(Security, Base);
        assert !IsSubclass(Security, Client) by {
          assert !IsSubclass(Base, Client);
        }
      case _ =>
        assert !IsSubclass(Base, Client) && !IsSubclass(Base, Security);
    }
  }

  function IndexOfColon(s: string): (i: nat)
    ensures i <= |s|
    ensures i < |s| ==> s[i] == ':'
    ensures forall j :: 0 <= j < i ==> s[j] != ':'
  {
    if s == [] then 0 else if s[0] == ':' then 0 else 1 + IndexOfColon(s[1..])
  }

  /** Split `str(e)` back into the class name and the message: everything up
      to the first colon, and everything after the colon and space. */
  function ParseStr(s: string): Option<(string, string)>
  {
    var i := IndexOfColon(s);
    if i + 2 <= |s| && s[i + 1] == ' ' then Some((s[..i], s[i + 2..])) else None
  }

  lemma IndexOfColonPrefix(name: string, rest: string)
    requires ':' !in name && rest != [] && rest[0] == ':'
    ensures IndexOfColon(name + rest) == |name|
    decreases |name|
  {
    if name != [] {
      assert (name + rest)[1..] == name[1..] + rest;
      IndexOfColonPrefix(name[1..], rest);
    }
  }

  /** No class name contains a colon, and no two classes share a name. */
  lemma ClassNames(c: ExcClass)
    ensures ':' !in ClassName(c)
    ensures forall d: ExcClass :: ClassName(d) == ClassName(c) ==> d == c
  {
  }

  /** `str(e)` can be read back: the class name contains no colon, so the
      first colon ends it, and what follows the colon and space is exactly
      the message. */
  lemma StrRoundTrip(e: AppException)
    ensures ParseStr(StrOf(e)) == Some((ClassName(e.cls), Format(e.message)))
  {
    var name := ClassName(e.cls);
    var rest := ": " + Format(e.message);
    var s := StrOf(e);
    ClassNames(e.cls);
    assert s == name + rest;
    IndexOfColonPrefix(name, rest);
    assert s[|name| + 1] == rest[1] == ' ';
    assert s[..|name|] == name;
    assert s[|name| + 2..] == rest[2..] == Format(e.message);
  }

  /** The message rules of `ConfigError`: an explicit truthy message is kept
      as it is; otherwise a truthy section and key name the offending entry,
      with the value quoted after it exactly when the value is truthy;
      otherwise the message is the generic one. */
  lemma ConfigErrorMessage(section: PyValue, key: PyValue, value: PyValue, message: PyValue)
    ensures var e := ConfigError(section, key, value, message);
            var entry := "Invalid config value for [" + Format(section) + "]->" + Format(key);
            (Truthy(message) ==> e.message == message) &&
            (!Truthy(message) && Truthy(section) && Truthy(key) ==>
               e.message.Str? && |entry| <= |e.message.s| && e.message.s[..|entry|] == entry &&
               (Truthy(value) <==> |e.message.s| > |entry|) &&
               (Truthy(value) ==> e.message.s[|entry|..] == " = '" + Format(value) + "'")) &&
            (!Truthy(message) && !(Truthy(section) && Truthy(key)) ==> e.message == Str("Configuration error"))
  {
    var e := ConfigError(section, key, value, message);
    var entry := "Invalid config value for [" + Format(section) + "]->" + Format(key);
    if !Truthy(message) && Truthy(section) && Truthy(key) {
      var suffix := if Truthy(value) then " = '" + Format(value) + "'" else "";
      assert e.message.s == entry + suffix;
      assert (entry + suffix)[..|entry|] == entry;
      assert (entry + suffix)[|entry|..] == suffix;
    }
  }

  /** `ConfigError("some text")`, as the configuration loader calls it, puts
      the text into `section`; with no key the message is the generic one and
      the text is lost. */
  lemma ConfigErrorPositional(text: string)
    ensures ConfigError(Str(text), NoneValue, NoneValue, NoneValue).message == Str("Configuration error")
    ensures text != "Configuration error" ==>
              StrOf(ConfigError(Str(text), NoneValue, NoneValue, NoneValue)) != "ConfigError: " + text
  {
    var e := ConfigError(Str(text), NoneValue, NoneValue, NoneValue);
    assert StrOf(e) == "ConfigError: " + "Configuration error";
    assert ("ConfigError: " + "Configuration error")[13..] == "Configuration error";
    assert ("ConfigError: " + text)[13..] == text;
  }

  /** `ServerError`: the message without details is a prefix of the message
      with details, and the details part is present exactly when the details
      are truthy. The arguments are kept unchanged as attributes. */
  lemma ServerErrorMessage(operation: PyValue, reason: PyValue, details: PyValue)
    ensures var head := "Server error during " + Format(operation) + ": " + Format(reason);
            var m := ServerError(operation, reason, details).message;
            m.Str? && m.s[..|head|] == head &&
            (Truthy(details) ==> m.s[|head|..] == " | Details: " + Format(details)) &&
            (!Truthy(details) ==> m.s == head)
    ensures ServerError(operation, reason, details).attrs["details"] == details
  {
    var head := "Server error during " + Format(operation) + ": " + Format(reason);
    var tail := if Truthy(details) then " | Details: " + Format(details) else "";
    assert (head + tail)[..|head|] == head && (head + tail)[|head|..] == tail;
  }

  /** Every client error, whatever its subclass, reads
      `Client error (ip:port): reason` and keeps ip, port and reason. */
  lemma ClientErrorMessage(cls: ExcClass, clientInfo: (PyValue, PyValue), reason: PyValue)
    requires IsSubclass(cls, Client)
    ensures var prefix := "Client error (" + Format(clientInfo.0) + ":" + Format(clientInfo.1) + "): ";
            var e := ClientErrorOf(cls, clientInfo, reason);
            e.message.Str? && |prefix| <= |e.message.s| &&
            e.message.s[..|prefix|] == prefix && e.message.s[|prefix|..] == Format(reason) &&
            e.attrs["client_ip"] == clientInfo.0 && e.attrs["client_port"] == clientInfo.1
  {
    var prefix := "Client error (" + Format(clientInfo.0) + ":" + Format(clientInfo.1) + "): ";
    assert (prefix + Format(reason))[..|prefix|] == prefix;
    assert (prefix + Format(reason))[|prefix|..] == Format(reason);
  }

  /** The reason of `ClientConfigError`: `Invalid config` alone without a
      key, `[key='value']` after it with a truthy key and value, and `[key]`
      after it with a truthy key and a falsy value. */
  lemma ClientConfigReasonCases(key: PyValue, value: PyValue)
    ensures !Truthy(key) ==> ClientConfigReason(key, value) == "Invalid config"
    ensures Truthy(key) && Truthy(value) ==>
              ClientConfigReason(key, value) == "Invalid config" + " [" + Format(key) + "='" + Format(value) + "']"
    ensures Truthy(key) && !Truthy(value) ==>
              ClientConfigReason(key, value) == "Invalid config" + " [" + Format(key) + "]"
  {
    ReasonRegrouped(Format(key), Format(value));
  }

  lemma ReasonRegrouped(k: string, v: string)
    ensures "Invalid config" + (" [" + k + "='" + v + "']") == "Invalid config" + " [" + k + "='" + v + "']"
    ensures "Invalid config" + (" [" + k + "]") == "Invalid config" + " [" + k + "]"
  {
  }

  /** An `SSLError` carries the message of a `SecurityError` for mechanism
      `SSL`; only the class differs, so `str` differs in its first part. */
  lemma SSLErrorIsSecurityError(operation: PyValue, reason: PyValue)
    ensures var e := SSLError(operation, reason);
            var s := SecurityError(Str("SSL"), Str(Format(operation) + " failed - " + Format(reason)));
            e.message == s.message && IsSubclass(e.cls, s.cls) && StrOf(e) != StrOf(s)
    ensures SSLError(operation, reason).message
              == Str("SSL" + " security failure: " + (Format(operation) + " failed - " + Format(reason)))
  {
    var e := SSLError(operation, reason);
    var s := SecurityError(Str("SSL"), Str(Format(operation) + " failed - " + Format(reason)));
    assert IsSubclass(SSL, Security);
    assert StrOf(e) == "SSLError" + (": " + Format(e.message));
    assert StrOf(s) == "SecurityError" + (": " + Format(s.message));
    assert StrOf(e)[1] == "SSLError"[1] == 'S';
    assert StrOf(s)[1] == "SecurityError"[1] == 'e';
  }

  /** `FileSystemError` keeps path and operation but not the reason, which
      survives only inside the message. */
  lemma FileSystemErrorFields(operation: PyValue, path: PyValue, reason: PyValue)
    ensures var e := FileSystemError(operation, path, reason);
            e.attrs.Keys == {"path", "operation"} &&
            e.message == Str("File error during " + Format(operation) + " '" + Format(path) + "': " + Format(reason))
  {
  }
}
