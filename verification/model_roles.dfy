/** The model configuration: one primary and one fallback model for each of
    five roles, looked up by role name. Reading the YAML file is not part of
    the model; a configuration arrives already decoded. */
module ModelRoles {
  import opened Wrappers

  datatype ModelRole = ModelRole(
    primary: string,
    fallback: string,
    description: string,
    maxTokens: int,
    temperature: real,
    dimensions: int)

  datatype ModelsSection = ModelsSection(
    chat: ModelRole,
    fast: ModelRole,
    reasoning: ModelRole,
    tools: ModelRole,
    embeddings: ModelRole)

  datatype AgentConfig = AgentConfig(modelRole: string, systemPrompt: string)

  datatype StrategySection = StrategySection(routing: string, escalationThreshold: real, maxRetries: int, timeout: int)

  datatype ModelConfig = ModelConfig(
    models: ModelsSection,
    agents: map<string, AgentConfig>,
    strategy: StrategySection,
    ollamaHost: string)

  /** The role names a configuration answers for. */
  const RoleNames: set<string> := {"chat", "fast", "reasoning", "tools", "embeddings"}

  /** `getRoleModel`: the section of a known role, an error for any other
      name. */
  function GetRoleModel(m: ModelConfig, role: string): (r: Result<ModelRole>)
    ensures r.Ok? <==> role in RoleNames
    ensures r.Err? ==> r.error == "unknown model role: " + role
    ensures role == "chat" ==> r == Ok(m.models.chat)
    ensures role == "fast" ==> r == Ok(m.models.fast)
    ensures role == "reasoning" ==> r == Ok(m.models.reasoning)
    ensures role == "tools" ==> r == Ok(m.models.tools)
    ensures role == "embeddings" ==> r == Ok(m.models.embeddings)
  {
    if role == "chat" then Ok(m.models.chat)
    else if role == "fast" then Ok(m.models.fast)
    else if role == "reasoning" then Ok(m.models.reasoning)
    else if role == "tools" then Ok(m.models.tools)
    else if role == "embeddings" then Ok(m.models.embeddings)
    else Err("unknown model role: " + role)
  }

  /** `GetModelForRole`: the role's primary model. */
  function GetModelForRole(m: ModelConfig, role: string): (r: Result<string>)
    ensures r.Ok? <==> role in RoleNames
    ensures r.Ok? ==> r.value == GetRoleModel(m, role).value.primary
    ensures r.Err? ==> r.error == "unknown model role: " + role
  {
    match GetRoleModel(m, role)
    case Ok(mr) => Ok(mr.primary)
    case Err(e) => Err(e)
  }

  /** `GetFallbackForRole`: the role's fallback model. */
  function GetFallbackForRole(m: ModelConfig, role: string): (r: Result<string>)
    ensures r.Ok? <==> role in RoleNames
    ensures r.Ok? ==> r.value == GetRoleModel(m, role).value.fallback
    ensures r.Err? ==> r.error == "unknown model role: " + role
  {
    match GetRoleModel(m, role)
    case Ok(mr) => Ok(mr.fallback)
    case Err(e) => Err(e)
  }

  /** The configuration with the section of one known role replaced, as
      the YAML decoder fills it in. */
  function WithRole(m: ModelConfig, role: string, mr: ModelRole): (r: ModelConfig)
    requires role in RoleNames
    ensures r.agents == m.agents && r.strategy == m.strategy && r.ollamaHost == m.ollamaHost
  {
    var s := m.models;
    var s :=
      if role == "chat" then s.(chat := mr)
      else if role == "fast" then s.(fast := mr)
      else if role == "reasoning" then s.(reasoning := mr)
      else if role == "tools" then s.(tools := mr)
      else s.(embeddings := mr);
    m.(models := s)
  }

  /** The five roles are independent slots: a lookup reads back what was
      put under that role, and every other role is unaffected. */
  lemma RolesIndependent(m: ModelConfig, role: string, mr: ModelRole, other: string)
    requires role in RoleNames
    ensures GetRoleModel(WithRole(m, role, mr), role) == Ok(mr)
    ensures other != role ==> GetRoleModel(WithRole(m, role, mr), other) == GetRoleModel(m, other)
    ensures GetModelForRole(WithRole(m, role, mr), role) == Ok(mr.primary)
    ensures GetFallbackForRole(WithRole(m, role, mr), role) == Ok(mr.fallback)
  {
  }
}
