/** Endpoints as observers report them. */
module Endpoints {
  import opened Base
  import opened Values

  /** Endpoint ids and type names are compared and never inspected, so a number stands for each. */
  type EndpointId = nat
  type TypeName = nat

  /**
   kind is the type of the endpoint's details, or the one name that stands for missing details;
   env is None when the endpoint cannot be converted to an environment.
   */
  datatype Endpoint = Endpoint(id: EndpointId, target: Bytes, kind: TypeName, env: Option<Properties>)
}
