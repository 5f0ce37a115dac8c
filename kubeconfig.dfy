/** The kubeconfig document GenerateConfig builds around an issued token
    (types.KubeConfig and its parts). YAML marshalling is not part of this model. */
module KubeConfig {
  import opened Wrappers

  datatype ClusterData = ClusterData(server: string, certificateData: string)
  datatype Cluster = Cluster(name: string, cluster: ClusterData)
  datatype ContextData = ContextData(cluster: string, user: string)
  datatype Context = Context(name: string, context: ContextData)
  datatype UserToken = UserToken(token: string)
  datatype User = User(user: UserToken, name: string)

  datatype Config = Config(
    apiVersion: string,
    kind: string,
    clusters: seq<Cluster>,
    currentContext: string,
    contexts: seq<Context>,
    users: seq<User>)

  const ClusterName := "kubernetes"

  /** What a client reading the document connects with: server, CA data and token. */
  datatype Access = Access(server: string, certificateData: string, token: string)

  /** The context name a user gets: "kubernetes-<username>". */
  function ContextName(username: string): string {
    ClusterName + "-" + username
  }

  function FindCluster(clusters: seq<Cluster>, name: string): Option<ClusterData> {
    if |clusters| == 0 then None
    else if clusters[0].name == name then Some(clusters[0].cluster)
    else FindCluster(clusters[1..], name)
  }

  function FindContext(contexts: seq<Context>, name: string): Option<ContextData> {
    if |contexts| == 0 then None
    else if contexts[0].name == name then Some(contexts[0].context)
    else FindContext(contexts[1..], name)
  }

  function FindUser(users: seq<User>, name: string): Option<string> {
    if |users| == 0 then None
    else if users[0].name == name then Some(users[0].user.token)
    else FindUser(users[1..], name)
  }

  /** How a client resolves a document: the current context by name, then the cluster
      and the user that context names; None when any of them is missing. */
  function Resolve(c: Config): Option<Access> {
    match FindContext(c.contexts, c.currentContext)
    case None => None
    case Some(ctx) =>
      match FindCluster(c.clusters, ctx.cluster)
      case None => None
      case Some(cluster) =>
        match FindUser(c.users, ctx.user)
        case None => None
        case Some(token) => Some(Access(cluster.server, cluster.certificateData, token))
  }

  /** The document literal of GenerateConfig: one cluster, one context, one user. Read
      the way a client reads it, it sends `token` to https://<host> and trusts `caData`. */
  function Render(username: string, token: string, host: string, caData: string): (c: Config)
    ensures c.apiVersion == "v1" && c.kind == "Config"
    ensures |c.clusters| == 1 && |c.contexts| == 1 && |c.users| == 1
    ensures c.clusters[0].name == ClusterName && c.users[0].name == username
    ensures c.currentContext == c.contexts[0].name == ContextName(username)
    ensures c.contexts[0].context == ContextData(ClusterName, username)
    ensures Resolve(c) == Some(Access("https://" + host, caData, token))
  {
    Config(
      "v1",
      "Config",
      [Cluster(ClusterName, ClusterData("https://" + host, caData))],
      ContextName(username),
      [Context(ContextName(username), ContextData(ClusterName, username))],
      [User(UserToken(token), username)])
  }

  /** Different users get different context names. */
  lemma ContextNameInjective(u1: string, u2: string)
    requires ContextName(u1) == ContextName(u2)
    ensures u1 == u2
  {
    assert u1 == ContextName(u1)[|ClusterName| + 1..];
    assert u2 == ContextName(u2)[|ClusterName| + 1..];
  }
}
