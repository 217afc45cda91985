/**
 * The slice of the EC2 and SNS APIs the checker uses, and the two clients
 * as collaborators whose responses are scripted and whose calls are logged.
 */
module Aws {
  import opened Wrappers
  import opened Report

  /** An EC2 tag; the SDK gives both halves as possibly-nil pointers. */
  datatype Tag = Tag(key: Option<string>, value: Option<string>)

  /** An instance as DescribeInstances returns it; launch time in nanoseconds since the epoch. */
  datatype Instance = Instance(
    id: string,
    instanceType: string,
    launchTime: Option<int>,
    tags: seq<Tag>)

  datatype Reservation = Reservation(instances: seq<Instance>)

  /** One page of DescribeInstances output. */
  datatype Page = Page(reservations: seq<Reservation>)

  /** What one NextPage call of the paginator yields. */
  datatype PageResult = PageOk(page: Page) | PageErr(reason: string)

  /** Outcome of a TerminateInstances or Publish call. */
  datatype CallResult = CallOk | CallErr(reason: string)

  /** A server-side filter of DescribeInstances. */
  datatype Filter = Filter(name: string, values: seq<string>)

  datatype Ec2Call =
    | Describe(filters: seq<Filter>)
    | Terminate(instanceIds: seq<string>)

  datatype Publication = Publication(topicArn: string, subject: string, message: seq<Line>)

  /** The response a scripted collaborator gives next: success once the script is exhausted. */
  function Next(script: seq<CallResult>): (r: CallResult)
    ensures script != [] ==> r == script[0]
    ensures script == [] ==> r == CallOk
  {
    if script == [] then CallOk else script[0]
  }

  /** The script left after one response has been given. */
  function Rest(script: seq<CallResult>): (r: seq<CallResult>)
    ensures script != [] ==> r == script[1..]
    ensures script == [] ==> r == []
  {
    if script == [] then [] else script[1..]
  }

  /** The EC2 service: pages still to be served, responses to terminations, and the log of calls. */
  class Ec2Client {
    var pages: seq<PageResult>
    var terminations: seq<CallResult>
    ghost var calls: seq<Ec2Call>

    constructor (pages: seq<PageResult>, terminations: seq<CallResult>)
      ensures this.pages == pages && this.terminations == terminations && calls == []
    {
      this.pages := pages;
      this.terminations := terminations;
      calls := [];
    }

    /** HasMorePages of the DescribeInstances paginator. */
    predicate HasMorePages()
      reads this
    {
      pages != []
    }

    /** NextPage of the paginator: one DescribeInstances call with the given filters. */
    method NextPage(filters: seq<Filter>) returns (r: PageResult)
      requires HasMorePages()
      modifies this
      ensures r == old(pages[0]) && pages == old(pages[1..])
      ensures terminations == old(terminations)
      ensures calls == old(calls) + [Describe(filters)]
    {
      r := pages[0];
      pages := pages[1..];
      calls := calls + [Describe(filters)];
    }

    method TerminateInstances(instanceIds: seq<string>) returns (r: CallResult)
      modifies this
      ensures r == Next(old(terminations)) && terminations == Rest(old(terminations))
      ensures pages == old(pages)
      ensures calls == old(calls) + [Terminate(instanceIds)]
    {
      r := Next(terminations);
      terminations := Rest(terminations);
      calls := calls + [Terminate(instanceIds)];
    }
  }

  /** The SNS service: responses to Publish, and the log of what was published. */
  class SnsClient {
    var responses: seq<CallResult>
    ghost var published: seq<Publication>

    constructor (responses: seq<CallResult>)
      ensures this.responses == responses && published == []
    {
      this.responses := responses;
      published := [];
    }

    method Publish(topicArn: string, subject: string, message: seq<Line>) returns (r: CallResult)
      modifies this
      ensures r == Next(old(responses)) && responses == Rest(old(responses))
      ensures published == old(published) + [Publication(topicArn, subject, message)]
    {
      r := Next(responses);
      responses := Rest(responses);
      published := published + [Publication(topicArn, subject, message)];
    }
  }
}
