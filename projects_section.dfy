/** The projects section: the project list split into featured and other projects,
    and the technology tags a card shows. */
module ProjectsSection {

  import opened Wrappers

  /** A project card's data. */
  datatype Project = Project(
    title: string,
    description: string,
    image: string,
    technologies: seq<string>,
    github: string,
    demo: string,
    featured: bool)

  /** How many technology tags a secondary card shows before the "+N more" badge. */
  const SecondaryTagLimit: nat := 3

  /** `projects.filter(p => p.featured == featured)`. */
  function FilterFeatured(ps: seq<Project>, featured: bool): (r: seq<Project>)
    ensures |r| <= |ps|
    ensures forall i :: 0 <= i < |r| ==> r[i].featured == featured
  {
    if ps == [] then []
    else if ps[0].featured == featured then [ps[0]] + FilterFeatured(ps[1..], featured)
    else FilterFeatured(ps[1..], featured)
  }

  /** `featuredProjects`. */
  function FeaturedProjects(ps: seq<Project>): (r: seq<Project>)
    ensures |r| <= |ps|
    ensures forall i :: 0 <= i < |r| ==> r[i].featured && r[i] in ps
  {
    FilterMembersAll(ps, true);
    FilterFeatured(ps, true)
  }

  /** `otherProjects`. */
  function OtherProjects(ps: seq<Project>): (r: seq<Project>)
    ensures |r| <= |ps|
    ensures forall i :: 0 <= i < |r| ==> !r[i].featured && r[i] in ps
  {
    FilterMembersAll(ps, false);
    FilterFeatured(ps, false)
  }

  /** `ps` is an interleaving of `xs` and `ys`: both keep the relative order they have
      in `ps`, and every element of `ps` is taken by exactly one of them. */
  ghost predicate Interleaving(ps: seq<Project>, xs: seq<Project>, ys: seq<Project>)
    decreases |ps|
  {
    if ps == [] then xs == [] && ys == []
    else
      || (xs != [] && xs[0] == ps[0] && Interleaving(ps[1..], xs[1..], ys))
      || (ys != [] && ys[0] == ps[0] && Interleaving(ps[1..], xs, ys[1..]))
  }

  /** The featured and the other projects are, together, the project list in its
      original order: each list keeps the order and each project goes to one list. */
  lemma {:induction false} PartitionKeepsOrder(ps: seq<Project>)
    ensures Interleaving(ps, FeaturedProjects(ps), OtherProjects(ps))
  {
    if ps != [] {
      PartitionKeepsOrder(ps[1..]);
    }
  }

  /** Every project lands in exactly one of the two lists, as many times as it occurs. */
  lemma {:induction false} PartitionIsPermutation(ps: seq<Project>)
    ensures multiset(FeaturedProjects(ps)) + multiset(OtherProjects(ps)) == multiset(ps)
  {
    if ps != [] {
      PartitionIsPermutation(ps[1..]);
      assert ps == [ps[0]] + ps[1..];
    }
  }

  /** The filter keeps exactly the projects with the flag asked for. */
  lemma {:induction false} FilterMembers(ps: seq<Project>, featured: bool, p: Project)
    ensures p in FilterFeatured(ps, featured) <==> p in ps && p.featured == featured
  {
    if ps != [] {
      FilterMembers(ps[1..], featured, p);
      assert p in ps <==> p == ps[0] || p in ps[1..];
    }
  }

  /** Every project the filter keeps comes from the list. */
  lemma FilterMembersAll(ps: seq<Project>, featured: bool)
    ensures forall p :: p in FilterFeatured(ps, featured) ==> p in ps
  {
    forall p | p in FilterFeatured(ps, featured) {
      FilterMembers(ps, featured, p);
    }
  }

  /** A listed project is in the featured list iff it is featured, and in the other
      list otherwise: it is in exactly one of them. */
  lemma ExactlyOneList(ps: seq<Project>, p: Project)
    requires p in ps
    ensures p in FeaturedProjects(ps) <==> p.featured
    ensures p in OtherProjects(ps) <==> !p.featured
  {
    FilterMembers(ps, true, p);
    FilterMembers(ps, false, p);
  }

  /** `technologies.slice(0, 3)`: the tags a secondary card shows. */
  function SecondaryCardTags(technologies: seq<string>): (r: seq<string>)
    ensures |r| == if |technologies| < SecondaryTagLimit then |technologies| else SecondaryTagLimit
    ensures r <= technologies
  {
    if |technologies| <= SecondaryTagLimit then technologies
    else technologies[..SecondaryTagLimit]
  }

  /** The "+N more" badge of a secondary card, when it has one. */
  function MoreBadge(technologies: seq<string>): (r: Option<nat>)
    ensures r.Some? <==> |technologies| > SecondaryTagLimit
  {
    if |technologies| > SecondaryTagLimit then Some(|technologies| - SecondaryTagLimit) else None
  }

  /** The tags a card shows: every tag on a featured card, the first three on a
      secondary one. */
  function CardTags(featuredCard: bool, technologies: seq<string>): (r: seq<string>)
    ensures r <= technologies
    ensures |r| == |technologies| <==> featuredCard || |technologies| <= SecondaryTagLimit
    ensures !featuredCard ==> |r| <= SecondaryTagLimit
  {
    if featuredCard then technologies else SecondaryCardTags(technologies)
  }

  /** The shown tags and the badge's count together account for every technology. */
  lemma TagsAccountForAll(technologies: seq<string>)
    ensures |SecondaryCardTags(technologies)| + (if MoreBadge(technologies).Some? then MoreBadge(technologies).value else 0) == |technologies|
    ensures SecondaryCardTags(technologies) + technologies[|SecondaryCardTags(technologies)|..] == technologies
  {
  }

  /** The site's project list. */
  const Projects: seq<Project> := [
    Project("E-Commerce Platform",
      "Full-stack e-commerce solution with React, Node.js, and PostgreSQL. Features include user authentication, payment processing, and admin dashboard.",
      "https://images.pexels.com/photos/230544/pexels-photo-230544.jpeg?auto=compress&cs=tinysrgb&w=1260&h=750&dpr=1",
      ["React", "Node.js", "PostgreSQL", "Stripe", "AWS"], "#", "#", true),
    Project("Task Management App",
      "Collaborative task management application with real-time updates, team collaboration features, and advanced filtering capabilities.",
      "https://images.pexels.com/photos/3861943/pexels-photo-3861943.jpeg?auto=compress&cs=tinysrgb&w=1260&h=750&dpr=1",
      ["Vue.js", "Firebase", "TypeScript", "Tailwind"], "#", "#", true),
    Project("Weather Analytics Dashboard",
      "Data visualization dashboard for weather analytics with interactive charts, forecasting, and historical data analysis.",
      "https://images.pexels.com/photos/1118873/pexels-photo-1118873.jpeg?auto=compress&cs=tinysrgb&w=1260&h=750&dpr=1",
      ["React", "D3.js", "Python", "FastAPI"], "#", "#", false),
    Project("Social Media Mobile App",
      "Cross-platform mobile application for social networking with real-time messaging, photo sharing, and user engagement features.",
      "https://images.pexels.com/photos/1482476/pexels-photo-1482476.jpeg?auto=compress&cs=tinysrgb&w=1260&h=750&dpr=1",
      ["React Native", "Node.js", "MongoDB", "Socket.io"], "#", "#", false),
    Project("AI-Powered Content Generator",
      "Machine learning application that generates content using natural language processing and provides content optimization suggestions.",
      "https://images.pexels.com/photos/8386440/pexels-photo-8386440.jpeg?auto=compress&cs=tinysrgb&w=1260&h=750&dpr=1",
      ["Python", "TensorFlow", "React", "OpenAI API"], "#", "#", false),
    Project("Blockchain Voting System",
      "Secure voting platform built on blockchain technology ensuring transparency, immutability, and voter anonymity.",
      "https://images.pexels.com/photos/6802049/pexels-photo-6802049.jpeg?auto=compress&cs=tinysrgb&w=1260&h=750&dpr=1",
      ["Solidity", "Web3.js", "React", "Ethereum"], "#", "#", false)
  ]

  /** Filtering distributes over concatenation. */
  lemma {:induction false} FilterConcat(xs: seq<Project>, ys: seq<Project>, featured: bool)
    ensures FilterFeatured(xs + ys, featured) == FilterFeatured(xs, featured) + FilterFeatured(ys, featured)
  {
    if xs == [] {
      assert xs + ys == ys;
    } else {
      var zs := xs + ys;
      assert zs[0] == xs[0];
      assert zs[1..] == xs[1..] + ys;
      FilterConcat(xs[1..], ys, featured);
      if xs[0].featured == featured {
        calc {
          FilterFeatured(zs, featured);
          [xs[0]] + FilterFeatured(xs[1..] + ys, featured);
          [xs[0]] + (FilterFeatured(xs[1..], featured) + FilterFeatured(ys, featured));
          ([xs[0]] + FilterFeatured(xs[1..], featured)) + FilterFeatured(ys, featured);
          FilterFeatured(xs, featured) + FilterFeatured(ys, featured);
        }
      }
    }
  }

  /** A list whose projects all share one flag is kept whole by that filter and
      emptied by the other. */
  lemma {:induction false} FilterUniform(ps: seq<Project>, featured: bool)
    requires forall i :: 0 <= i < |ps| ==> ps[i].featured == featured
    ensures FilterFeatured(ps, featured) == ps
    ensures FilterFeatured(ps, !featured) == []
  {
    if ps != [] {
      FilterUniform(ps[1..], featured);
    }
  }

  /** On the site's list the first two projects are featured and the other four are
      secondary, each list in the site's order. */
  lemma SiteListing()
    ensures FeaturedProjects(Projects) == Projects[..2]
    ensures OtherProjects(Projects) == Projects[2..]
  {
    var head, tail := Projects[..2], Projects[2..];
    assert Projects == head + tail;
    assert forall i :: 0 <= i < |head| ==> head[i].featured;
    assert forall i :: 0 <= i < |tail| ==> !tail[i].featured;
    FilterUniform(head, true);
    FilterUniform(tail, false);
    FilterConcat(head, tail, true);
    FilterConcat(head, tail, false);
  }

  /** Every secondary card on the site shows three tags and a "+1 more" badge. */
  lemma SiteSecondaryCards()
    ensures forall i :: 0 <= i < |OtherProjects(Projects)| ==>
      var techs := OtherProjects(Projects)[i].technologies;
      |SecondaryCardTags(techs)| == 3 && MoreBadge(techs) == Some(1)
  {
    SiteListing();
    var tail := Projects[2..];
    assert forall i :: 0 <= i < |tail| ==> |tail[i].technologies| == 4;
  }
}
