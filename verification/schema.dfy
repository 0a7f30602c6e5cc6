/** The schema configuration the runtime hands to `graphql.NewSchema`, both when a
    handler is validated at registration and when a request is served. */
module SchemaAssembly {
  import opened MuxTypes

  /** The Query root is present iff there are query fields, the Mutation root iff there
      are mutation fields; each root carries exactly the given fields. */
  function BuildSchemaConfig(queries: Fields, mutations: Fields): (c: SchemaConfig)
    ensures c.query.Some? <==> |queries| > 0
    ensures c.mutation.Some? <==> |mutations| > 0
    ensures c.query.Some? ==> c.query.value == ObjectConfig("Query", queries)
    ensures c.mutation.Some? ==> c.mutation.value == ObjectConfig("Mutation", mutations)
  {
    SchemaConfig(
      if |queries| > 0 then Some(ObjectConfig("Query", queries)) else None,
      if |mutations| > 0 then Some(ObjectConfig("Mutation", mutations)) else None)
  }

  /** The configuration determines the field maps it was built from. */
  lemma BuildSchemaConfigInjective(q1: Fields, m1: Fields, q2: Fields, m2: Fields)
    requires BuildSchemaConfig(q1, m1) == BuildSchemaConfig(q2, m2)
    ensures q1 == q2 && m1 == m2
  {
  }
}
