/** The request bodies sent to the image API (model/request).

    Java's inheritance chain ImageDto <- BackgroundDto <- {CreateBackgroundDto,
    InpaintDto} is flattened by composition: `BackgroundDto` holds the image
    field and the five background fields, the two subclasses embed it. Every
    reference-typed Java field may be null, so every field is an `Option`. */
module Dtos {
  import opened Wrappers

  /** A Java `int`/`Integer` value. */
  type Int32 = x: int | -0x8000_0000 <= x < 0x8000_0000

  /** The remove-background request: only the image. */
  datatype ImageDto = ImageDto(image: Option<string>)

  /** The upscale request. */
  datatype UpscaleDto = UpscaleDto(image: Option<string>, size: Int32)

  datatype BackgroundDto = BackgroundDto(
    image: Option<string>,
    theme: Option<string>,
    description: Option<string>,
    styleColor: Option<string>,
    styleImage: Option<string>,
    negative: Option<string>)

  datatype CreateBackgroundDto = CreateBackgroundDto(
    background: BackgroundDto,
    images: Option<seq<string>>,
    height: Option<Int32>,
    width: Option<Int32>)

  datatype InpaintDto = InpaintDto(background: BackgroundDto, mask: Option<string>)

  /** A background with every field unset, as a no-argument constructor leaves it. */
  const UnsetBackground := BackgroundDto(None, None, None, None, None, None)

  /** `new CreateBackgroundDto()`. */
  const NewCreateBackgroundDto := CreateBackgroundDto(UnsetBackground, None, None, None)

  /** `new InpaintDto(mask)`: the single-field constructor sets only the mask. */
  function NewInpaintDto(mask: string): (dto: InpaintDto)
    ensures dto.mask == Some(mask) && dto.background == UnsetBackground
  {
    InpaintDto(UnsetBackground, Some(mask))
  }

  /** `s != null && !s.isEmpty()`. */
  predicate IsPresent(s: Option<string>) {
    s.Some? && s.value != ""
  }

  /** The value a conditional setter leaves: the argument when it is present,
      otherwise whatever the field held. */
  function SetIfPresent(field: Option<string>, arg: Option<string>): (r: Option<string>)
    ensures IsPresent(arg) ==> r == arg
    ensures !IsPresent(arg) ==> r == field
  {
    if IsPresent(arg) then arg else field
  }

  /** The setters of `buildBackgroundDto` before the style image: description
      and negative are copied as given (null and "" included), theme and style
      color only when present. */
  function ApplyBackgroundFields(dto: BackgroundDto, theme: Option<string>, description: Option<string>,
                                 styleColor: Option<string>, negative: Option<string>): (r: BackgroundDto)
    ensures r.description == description && r.negative == negative
    ensures IsPresent(theme) ==> r.theme == theme
    ensures !IsPresent(theme) ==> r.theme == dto.theme
    ensures IsPresent(styleColor) ==> r.styleColor == styleColor
    ensures !IsPresent(styleColor) ==> r.styleColor == dto.styleColor
    ensures r.image == dto.image && r.styleImage == dto.styleImage
  {
    dto.(description := description, negative := negative,
         theme := SetIfPresent(dto.theme, theme),
         styleColor := SetIfPresent(dto.styleColor, styleColor))
  }

  /** The two `Objects.nonNull` setters of `buildCreateBackgroundDto`. */
  function ApplyDimensions(dto: CreateBackgroundDto, height: Option<Int32>, width: Option<Int32>): (r: CreateBackgroundDto)
    ensures height.Some? ==> r.height == height
    ensures height.None? ==> r.height == dto.height
    ensures width.Some? ==> r.width == width
    ensures width.None? ==> r.width == dto.width
    ensures r.background == dto.background && r.images == dto.images
  {
    var withHeight := if height.Some? then dto.(height := height) else dto;
    if width.Some? then withHeight.(width := width) else withHeight
  }

  /** An absent value and an empty string mean the same thing for theme and
      style color: both leave the field as it was. */
  lemma AbsentAndEmptyAgree(dto: BackgroundDto, description: Option<string>, negative: Option<string>)
    ensures ApplyBackgroundFields(dto, None, description, None, negative)
         == ApplyBackgroundFields(dto, Some(""), description, Some(""), negative)
  {
  }

  /** Starting from an unset DTO, theme and style color end up set exactly when
      the argument is present, and never hold the empty string; description and
      negative, by contrast, pass an empty string through. */
  lemma UnsetFieldsOmitBlanks(theme: Option<string>, description: Option<string>,
                              styleColor: Option<string>, negative: Option<string>)
    ensures var r := ApplyBackgroundFields(UnsetBackground, theme, description, styleColor, negative);
      && (r.theme.Some? <==> IsPresent(theme))
      && (r.styleColor.Some? <==> IsPresent(styleColor))
      && r.theme != Some("") && r.styleColor != Some("")
      && (description == Some("") ==> r.description == Some(""))
      && (negative == Some("") ==> r.negative == Some(""))
  {
  }

  /** Starting from a fresh DTO, height and width equal their arguments: a null
      leaves the field unset. */
  lemma FreshDimensions(height: Option<Int32>, width: Option<Int32>)
    ensures ApplyDimensions(NewCreateBackgroundDto, height, width).height == height
    ensures ApplyDimensions(NewCreateBackgroundDto, height, width).width == width
  {
  }
}
