/**
 * HttpClientConfiguration: the read-only option set consulted by the client,
 * and the values of HttpClientDefaultConfiguration.
 * A Java `String` option that may be null is an `Option<string>`; every
 * `int` option is a 32-bit `Int32`.
 */
module Configuration {
  import opened Common

  datatype Config = Config(
    proxyHost: Option<string>,
    proxyPort: Int32,
    proxyUser: Option<string>,
    proxyPassword: Option<string>,
    connectionTimeout: Int32,
    readTimeout: Int32,
    retryCount: Int32,
    retryIntervalSeconds: Int32,
    maxTotalConnections: Int32,
    defaultMaxPerRoute: Int32,
    formTextContentType: Option<string>,
    prettyDebugEnabled: bool,
    gzipEnabled: bool)

  /** HttpClientDefaultConfiguration. */
  const Default: Config := Config(
    proxyHost := None,
    proxyPort := -1,
    proxyUser := None,
    proxyPassword := None,
    connectionTimeout := 20000,
    readTimeout := 120000,
    retryCount := 0,
    retryIntervalSeconds := 5,
    maxTotalConnections := 20,
    defaultMaxPerRoute := 2,
    formTextContentType := Some("text/plain"),
    prettyDebugEnabled := true,
    gzipEnabled := true)
}
