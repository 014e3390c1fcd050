/** The records shared by the Docker and the Tailscale side. */
module Types {

  datatype Option<+T> = None | Some(value: T)

  datatype Result<+T> = Success(value: T) | Failure

  /** One service of one container, as its labels declare it. */
  datatype ContainerService = ContainerService(
    containerName: string,
    serviceEnabled: bool,
    serviceName: string,
    serviceDescription: string,
    port: string,
    targetPort: string,
    serviceProtocol: string,
    servicePath: string,
    protocol: string,
    tags: seq<string>,
    ipAddress: string,
    proxyProtocol: int,
    funnelEnabled: bool,
    funnelPort: string,
    funnelTargetPort: string,
    funnelFunnelPort: string,
    funnelProtocol: string,
    funnelPath: string)
}
