/** The part of the RDF data model the backend relies on: a parsed graph is a sequence of
    triples in the (fixed) order rdflib iterates it; subjects and predicates are IRIs or
    blank-node ids given by their string form, objects keep their kind and language tag. */
module Rdf {
  import opened Common

  datatype Node =
    | Iri(iri: string)
    | Blank(id: string)
    | Literal(lexical: string, language: Option<string>)

  datatype Triple = Triple(subject: string, pred: string, obj: Node)

  /** Python's `str(node)`. */
  function Str(n: Node): string
  {
    match n
    case Iri(i) => i
    case Blank(b) => b
    case Literal(l, _) => l
  }

  const RdfType := "http://www.w3.org/1999/02/22-rdf-syntax-ns#type"
  const RdfsLabel := "http://www.w3.org/2000/01/rdf-schema#label"
  const RdfsComment := "http://www.w3.org/2000/01/rdf-schema#comment"
  const RdfsSubClassOf := "http://www.w3.org/2000/01/rdf-schema#subClassOf"
  const RdfsClass := "http://www.w3.org/2000/01/rdf-schema#Class"
  const OwlClass := "http://www.w3.org/2002/07/owl#Class"
}
