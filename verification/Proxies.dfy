/** The ways of reaching the outside: an upstream proxy, or a direct connection. */
module Proxies {
  import opened Wrappers

  datatype UpstreamProxy =
    | Socks5(host: string, port: nat, username: Option<string>, password: Option<string>)
    | Http(host: string, port: nat, auth: Option<string>)
    | Direct
}
