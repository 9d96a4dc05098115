/** The messages of internal/server/apimodels/rpc.go, as far as the correlator looks at them. */
module ApiModels {
  datatype Response = Response(id: string, payload: string)
}
