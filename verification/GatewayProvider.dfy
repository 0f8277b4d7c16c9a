/** The gateway integrations the operator ships, against any other provider name. */
module GatewayProvider {
  datatype Provider = HTTPRoute | Kuadrant | OtherProvider(name: string)
}
