/** The parts of the template engine that the cache relies on: the template specification
    it is asked for, the failures that construction can raise, and a templator object that
    pairs an immutable parsed structure with a mutable binding state. The parser and the
    renderer themselves are not part of this model. */
module Templator {
  import opened Wrappers

  /** What a caller asks the cache for: inline template text or a template file,
      plus the condition flags that are active while the template is parsed. */
  datatype TemplateSpecification = TemplateSpecification(
    templateText: Option<string>,
    templateFileName: Option<string>,
    conditionFlags: Option<seq<string>>)

  /** The exceptions that reach a caller of the cache. */
  datatype Failure =
    | IllegalArgument(message: string)  // neither template text nor file name given
    | IoFailure(message: string)        // the template file could not be read
    | TemplateSyntax(message: string)   // the template text is malformed

  /** A placeholder for one node of a parsed template. The parser is not part of this model,
      and the cache only stores and copies structures without looking inside them. */
  datatype Node = Node(text: string)

  /** The parsed, read-only structure of one template. */
  type Structure = seq<Node>

  /** The per-render state. The cache only needs to know whether it is the empty state. */
  datatype BindingState = BindingState(variables: map<string, string>)

  /** The binding state of a freshly built or freshly reset templator. */
  const Pristine := BindingState(map[])

  class MiniTemplator {
    const structure: Structure
    var bindings: BindingState

    constructor (structure: Structure)
      ensures this.structure == structure && bindings == Pristine
    {
      this.structure := structure;
      bindings := Pristine;
    }

    /** Builds a templator from the outcome of reading and parsing its template;
        a failed read or parse builds nothing and passes the failure on. */
    static method Create(parse: Result<Structure, Failure>) returns (r: Result<MiniTemplator, Failure>)
      ensures r.Failure? <==> parse.Failure?
      ensures r.Failure? ==> r.error == parse.error
      ensures r.Success? ==> fresh(r.value) && r.value.structure == parse.value && r.value.bindings == Pristine
    {
      match parse
      case Failure(e) =>
        r := Failure(e);
      case Success(s) =>
        var mt := new MiniTemplator(s);
        r := Success(mt);
    }

    /** A new templator over the same parsed structure, with all bindings cleared. */
    method CloneReset() returns (c: MiniTemplator)
      ensures fresh(c) && c.structure == structure && c.bindings == Pristine
    {
      c := new MiniTemplator(structure);
    }
  }
}
