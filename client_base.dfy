/**
 * HttpClientBase and the connection set-up of HttpClientImpl.getConnection:
 * the proxy predicate, DataOutputStream with the `write` helper, and the
 * decisions getConnection takes from the configuration (proxy, proxy
 * authenticator, timeouts, redirects), reduced to a settings value.
 */
module ClientBase {
  import opened Common
  import opened Configuration

  /** isProxyConfigured: a proxy host is set and is not the empty string. */
  predicate IsProxyConfigured(conf: Config) {
    conf.proxyHost.Some? && conf.proxyHost.value != ""
  }

  /** The bytes written so far to a java.io.DataOutputStream. */
  class DataOutputStream {
    var written: seq<byte>

    constructor ()
      ensures written == []
    {
      written := [];
    }

    /** write(int): the low-order eight bits of the argument. */
    method WriteByte(b: int)
      modifies this
      ensures written == old(written) + [b % 256]
    {
      written := written + [b % 256];
    }

    /** write(byte[]): every byte in order. */
    method WriteAll(bytes: seq<byte>)
      modifies this
      ensures written == old(written) + bytes
    {
      written := written + bytes;
    }

    /** writeBytes(String): each character in sequence, with its high eight bits discarded. */
    method WriteBytes(s: string)
      modifies this
      ensures written == old(written) + LowBytes(s)
    {
      written := written + LowBytes(s);
    }
  }

  /** HttpClientBase.write: out.writeBytes(outStr), so exactly |outStr| bytes, one low byte per character. */
  method Write(out: DataOutputStream, outStr: string)
    modifies out
    ensures out.written == old(out.written) + LowBytes(outStr)
    ensures |out.written| == |old(out.written)| + |outStr|
  {
    out.WriteBytes(outStr);
  }

  /** The unresolved proxy address handed to java.net.Proxy. */
  datatype ProxyAddress = ProxyAddress(host: string, port: int)

  /** The configuration values the installed authenticator reads when it is asked. */
  datatype ProxyCredentials = ProxyCredentials(user: string, password: Option<string>)

  /** The connection as getConnection leaves it. */
  datatype Settings = Settings(
    proxy: Option<ProxyAddress>,
    authenticator: Option<ProxyCredentials>,
    connectTimeout: Option<Int32>,
    readTimeout: Option<Int32>,
    followRedirects: bool)

  datatype RequestorType = PROXY | SERVER

  /**
   * getConnection reduced to its decisions: a proxy exactly when one is
   * configured, an authenticator exactly when there is also a non-empty proxy
   * user, each timeout only when positive, and redirects never followed.
   * InetSocketAddress.createUnresolved refuses a port outside 0..65535.
   */
  function ConnectionSettings(conf: Config): (r: Result<Settings, RuntimeError>)
    ensures r.Failure? <==> IsProxyConfigured(conf) && !(0 <= conf.proxyPort <= 65535)
    ensures r.Failure? ==> r.error == PortOutOfRange(conf.proxyPort)
    ensures r.Success? ==> (r.value.proxy.Some? <==> IsProxyConfigured(conf))
    ensures r.Success? && r.value.proxy.Some? ==>
      r.value.proxy.value == ProxyAddress(conf.proxyHost.value, conf.proxyPort)
    ensures r.Success? ==>
      (r.value.authenticator.Some? <==> IsProxyConfigured(conf) && conf.proxyUser.Some? && conf.proxyUser.value != "")
    ensures r.Success? ==> (r.value.connectTimeout.Some? <==> conf.connectionTimeout > 0)
    ensures r.Success? ==> (r.value.readTimeout.Some? <==> conf.readTimeout > 0)
    ensures r.Success? && r.value.connectTimeout.Some? ==> r.value.connectTimeout.value == conf.connectionTimeout
    ensures r.Success? && r.value.readTimeout.Some? ==> r.value.readTimeout.value == conf.readTimeout
    ensures r.Success? ==> !r.value.followRedirects
  {
    var connect := if conf.connectionTimeout > 0 then Some(conf.connectionTimeout) else None;
    var read := if conf.readTimeout > 0 then Some(conf.readTimeout) else None;
    if IsProxyConfigured(conf) then
      var auth :=
        if conf.proxyUser.Some? && conf.proxyUser.value != "" then
          Some(ProxyCredentials(conf.proxyUser.value, conf.proxyPassword))
        else None;
      if 0 <= conf.proxyPort <= 65535 then
        Success(Settings(Some(ProxyAddress(conf.proxyHost.value, conf.proxyPort)), auth, connect, read, false))
      else
        Failure(PortOutOfRange(conf.proxyPort))
    else
      Success(Settings(None, None, connect, read, false))
  }

  /**
   * The installed authenticator's getPasswordAuthentication: user and password
   * for a proxy requestor (a null password is a NullPointerException at
   * toCharArray), nothing for any other requestor.
   */
  function AuthenticatorAnswer(cred: ProxyCredentials, requestor: RequestorType): (r: Result<Option<(string, string)>, RuntimeError>)
    ensures requestor != PROXY ==> r == Success(None)
    ensures requestor == PROXY && cred.password.None? ==> r == Failure(NullPointer)
    ensures requestor == PROXY && cred.password.Some? ==> r == Success(Some((cred.user, cred.password.value)))
  {
    if requestor == PROXY then
      if cred.password.None? then Failure(NullPointer)
      else Success(Some((cred.user, cred.password.value)))
    else Success(None)
  }

  /**
   * The default configuration connects directly, installs no authenticator,
   * applies both timeouts (20 s and 120 s) and does not follow redirects.
   */
  lemma DefaultConnection()
    ensures !IsProxyConfigured(Default)
    ensures ConnectionSettings(Default) == Success(Settings(None, None, Some(20000), Some(120000), false))
  {
  }
}
