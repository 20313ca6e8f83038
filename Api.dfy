/** The mock remote data source: its record shapes, its fixed collections and the endpoint
    dispatch of `fetchAPI`. The simulated network delay is not modelled; the clock that stamps
    the mock posts is the parameter `now`. */
module Api {
  import opened Strings

  datatype Business = Business(
    id: string, name: string, category: string, description: string, location: string,
    ratingTenths: nat,  // the rating times ten: 4.5 is 45
    reviewCount: nat, image: string)

  datatype Author = Author(name: string, avatar: string)

  datatype Comment = Comment(id: string, content: string, author: Author, timestamp: string, likes: nat)

  datatype Post = Post(
    id: string, content: string, author: Author, timestamp: string,
    likes: nat, dislikes: nat, comments: seq<Comment>)

  datatype Event = Event(
    id: string, name: string, eventType: string, description: string,
    date: string,  // ISO YYYY-MM-DD
    time: string,  // HH:MM
    location: string, ticketPrice: int, image: string)

  datatype Topic = Topic(id: string, name: string, postCount: nat)

  /** One of the four fixed collections the mock source can answer with. */
  datatype Collection =
    | Businesses(businesses: seq<Business>)
    | Posts(posts: seq<Post>)
    | Events(events: seq<Event>)
    | TrendingTopics(topics: seq<Topic>)

  /** The thrown `Error` becomes `Err` holding its message. */
  datatype Result<T> = Ok(value: T) | Err(message: string)

  const MockBusinesses: seq<Business> := [
    Business("1", "Urban Cafe", "restaurant", "A cozy cafe serving artisanal coffee and pastries",
             "Downtown", 45, 128, "https://picsum.photos/800/600?random=1"),
    Business("2", "Tech Hub", "service", "Professional IT services and consulting",
             "Business District", 48, 89, "https://picsum.photos/800/600?random=2")
  ]

  /** The posts are stamped with the current time when the module is loaded. */
  function MockPosts(now: string): (r: seq<Post>)
    ensures |r| == 1 && r[0].timestamp == now
    ensures |r[0].comments| == 1 && r[0].comments[0].timestamp == now
  {
    [Post("1", "Just discovered an amazing new restaurant downtown!",
          Author("Jane Smith", "https://picsum.photos/100/100?random=3"), now, 42, 2,
          [Comment("1", "Thanks for sharing!", Author("John Doe", "https://picsum.photos/100/100?random=4"),
                   now, 5)])]
  }

  const MockEvents: seq<Event> := [
    Event("1", "Summer Music Festival", "urban", "Annual music festival featuring local artists",
          "2024-07-15", "18:00", "City Park", 25, "https://picsum.photos/800/600?random=5"),
    Event("2", "Food & Wine Expo", "cultural", "Explore local cuisine and wine tasting",
          "2024-08-20", "12:00", "Convention Center", 40, "https://picsum.photos/800/600?random=6")
  ]

  const MockTrendingTopics: seq<Topic> := [
    Topic("1", "LocalFoodScene", 156),
    Topic("2", "CommunityEvents", 89),
    Topic("3", "SmallBusiness", 234)
  ]

  /** The endpoints that have an answer: three prefixes and one exact path. */
  predicate IsKnownEndpoint(endpoint: string) {
    StartsWith(endpoint, "/businesses") || StartsWith(endpoint, "/posts") ||
    StartsWith(endpoint, "/events") || endpoint == "/trending-topics"
  }

  /** `fetchAPI(endpoint)`: the first matching rule answers; an unknown endpoint is an error whose
      message names it. */
  function FetchAPI(endpoint: string, now: string): (r: Result<Collection>)
    ensures r.Ok? <==> IsKnownEndpoint(endpoint)
    ensures r.Err? ==> Contains(r.message, endpoint)
  {
    if StartsWith(endpoint, "/businesses") then Ok(Businesses(MockBusinesses))
    else if StartsWith(endpoint, "/posts") then Ok(Posts(MockPosts(now)))
    else if StartsWith(endpoint, "/events") then Ok(Events(MockEvents))
    else if endpoint == "/trending-topics" then Ok(TrendingTopics(MockTrendingTopics))
    else
      ContainsSuffix("Endpoint not found: ", endpoint);
      Err("Endpoint not found: " + endpoint)
  }

  /** Every endpoint under `/events` answers with the events collection, whatever follows. */
  lemma EventsPrefix(suffix: string, now: string)
    ensures FetchAPI("/events" + suffix, now) == Ok(Events(MockEvents))
  {
    assert StartsWith("/events" + suffix, "/events");
    assert ("/events" + suffix)[1] == 'e';
  }

  /** Every endpoint under `/businesses` answers with the businesses collection. */
  lemma BusinessesPrefix(suffix: string, now: string)
    ensures FetchAPI("/businesses" + suffix, now) == Ok(Businesses(MockBusinesses))
  {
    assert StartsWith("/businesses" + suffix, "/businesses");
  }

  /** Every endpoint under `/posts` answers with the posts collection. */
  lemma PostsPrefix(suffix: string, now: string)
    ensures FetchAPI("/posts" + suffix, now) == Ok(Posts(MockPosts(now)))
  {
    assert StartsWith("/posts" + suffix, "/posts");
    assert !StartsWith("/posts" + suffix, "/businesses") by {
      assert ("/posts" + suffix)[1] == 'p';
    }
  }

  /** No endpoint matches two rules, so the order in which they are tried decides nothing. */
  lemma RulesDisjoint(endpoint: string)
    ensures !(StartsWith(endpoint, "/businesses") && StartsWith(endpoint, "/posts"))
    ensures !(StartsWith(endpoint, "/businesses") && StartsWith(endpoint, "/events"))
    ensures !(StartsWith(endpoint, "/posts") && StartsWith(endpoint, "/events"))
    ensures endpoint == "/trending-topics" ==>
              !StartsWith(endpoint, "/businesses") && !StartsWith(endpoint, "/posts") &&
              !StartsWith(endpoint, "/events")
  {
    if |endpoint| >= 2 {
      if StartsWith(endpoint, "/businesses") { assert endpoint[1] == 'b'; }
      if StartsWith(endpoint, "/posts") { assert endpoint[1] == 'p'; }
      if StartsWith(endpoint, "/events") { assert endpoint[1] == 'e'; }
      if endpoint == "/trending-topics" { assert endpoint[1] == 't'; }
    }
  }

  /** `/trending-topics` is matched exactly: anything longer is an unknown endpoint. */
  lemma TrendingTopicsExact(suffix: string, now: string)
    requires suffix != []
    ensures FetchAPI("/trending-topics", now) == Ok(TrendingTopics(MockTrendingTopics))
    ensures FetchAPI("/trending-topics" + suffix, now).Err?
  {
    var e := "/trending-topics" + suffix;
    assert e[1] == 't';
    assert !StartsWith(e, "/businesses") && !StartsWith(e, "/posts") && !StartsWith(e, "/events");
    assert |e| > |"/trending-topics"|;
  }

  /** The businesses collection: two records, ids "1" and "2", rated 4.5 and 4.8. */
  lemma MockBusinessesShape()
    ensures |MockBusinesses| == 2
    ensures MockBusinesses[0].id == "1" && MockBusinesses[0].ratingTenths == 45
    ensures MockBusinesses[1].id == "2" && MockBusinesses[1].ratingTenths == 48
  {
  }

  /** The trending topics: three records, ids "1" to "3", with 156, 89 and 234 posts. */
  lemma MockTrendingTopicsShape()
    ensures |MockTrendingTopics| == 3
    ensures MockTrendingTopics[0].id == "1" && MockTrendingTopics[0].postCount == 156
    ensures MockTrendingTopics[1].id == "2" && MockTrendingTopics[1].postCount == 89
    ensures MockTrendingTopics[2].id == "3" && MockTrendingTopics[2].postCount == 234
  {
  }

  /** The events collection: two records, ids "1" and "2", on 2024-07-15 and 2024-08-20. */
  lemma MockEventsShape()
    ensures |MockEvents| == 2
    ensures MockEvents[0].id == "1" && MockEvents[0].date == "2024-07-15"
    ensures MockEvents[1].id == "2" && MockEvents[1].date == "2024-08-20"
  {
  }
}
